/** Whole runs of one actor's durable state. Sessions capture and hand commits to the store, where they
    land late, twice or never; a session acknowledges its commit once it is stored; checkpoints are
    written beside any stored object; and sessions, several at a time, are dropped and opened or
    restored from any object, either resuming its history or starting a new one. */
module SnapshotRuns {
  import opened Wrappers
  import opened Ltx
  import opened StateLog
  import opened Capture
  import opened Recovery

  /** The codec together with its encoders. */
  datatype Coder = Coder(
    c: Codec, encodeSnapshot: StateSnapshot -> Blob, encodeCheckpoint: Checkpoint -> Blob)

  /** Decoding undoes encoding. */
  ghost predicate Lawful(k: Coder) {
    && (forall s: StateSnapshot :: k.c.snapshot(k.encodeSnapshot(s)) == Some(s))
    && (forall p: Checkpoint :: k.c.checkpoint(k.encodeCheckpoint(p)) == Some(p))
  }

  /** A commit handed to the store, and the database it was captured from. */
  datatype Write = Write(name: string, snapshot: StateSnapshot, db: Pages)

  /** A resident database: the acknowledged head that the next delta builds on, the transaction up to
      which the local history was captured with the pages as of that transaction, and the commit that
      was handed to the store and is not acknowledged yet. */
  datatype Session = Session(
    epoch: u64, version: u64, head: Option<SnapshotRef>, captured: u64, db: Pages, pending: Option<Write>)

  /** The store, all commits ever handed to it, the sessions, and, for each object, the database it was
      captured from. */
  datatype World = World(h: History, truth: map<string, Pages>, writes: set<Write>, sessions: map<nat, Session>)

  const Initial: World := World(History(map[], map[], {}), map[], {}, map[])

  datatype Event =
    | Open(id: nat, epoch: u64)
    | Capture(id: nat, replica: Replica, txid: u64, dbAt: nat -> Pages, name: string, requestId: string)
    | Land(write: Write)
    | Acknowledge(id: nat)
    | WriteCheckpoint(name: string, length: u64)
    | Restart(id: nat, name: string, prefetched: Option<Prefetched>, epoch: u64, resumed: bool)
    | Drop(id: nat)

  // ----- commits -----

  /** The commit a capture produces, linked to the head unless it begins at transaction 1. */
  ghost function Linked(session: Session, txid: u64, files: seq<LtxFile>): Option<SqliteSnapshot>
    requires files != []
  {
    if files[0].first == 1 then Some(SqliteSnapshot(txid, None, files))
    else if session.head.None? then None
    else Some(SqliteSnapshot(txid, session.head, files))
  }

  ghost predicate Moves(session: Session, e: Event)
    requires e.Capture?
  {
    var files := Collected(e.replica, session.captured, e.txid);
    e.txid >= session.captured && files.Ok? && files.value != []
  }

  ghost function Captured(session: Session, e: Event): (r: Option<StateSnapshot>)
    requires e.Capture?
    ensures r.Some? ==> r.value.WellFormed() && Moves(session, e)
  {
    if !Moves(session, e) || session.version == U64_MAX then None
    else
      var sqlite := Linked(session, e.txid, Collected(e.replica, session.captured, e.txid).value);
      if sqlite.None? then None
      else
        var s := StateSnapshot(session.version + 1, session.epoch, e.requestId, sqlite.value);
        if s.WellFormed() then Some(s) else None
  }

  /** The commit that a capture hands to the store, if it gets that far. */
  ghost function Handed(k: Coder, session: Session, e: Event): Option<Write>
    requires e.Capture?
  {
    var s := Captured(session, e);
    if s.None? || !SameActor(k.c, s.value, e.name) then None else Some(Write(e.name, s.value, e.dbAt(e.txid)))
  }

  /** A capture moves the session's position even when its commit then cannot be made. */
  ghost function Capturing(k: Coder, w: World, e: Event): World
    requires e.Capture?
  {
    if e.id !in w.sessions || !Moves(w.sessions[e.id], e) then w
    else
      var session := w.sessions[e.id];
      var moved := session.(captured := e.txid, db := e.dbAt(e.txid));
      var x := Handed(k, session, e);
      if x.None? then w.(sessions := w.sessions[e.id := moved])
      else w.(sessions := w.sessions[e.id := moved.(pending := x)], writes := w.writes + {x.value})
  }

  /** Objects are immutable: a commit takes a free name and is refused any other. */
  ghost function Landed(k: Coder, w: World, x: Write): World {
    if x !in w.writes || x.name in w.h.objects then w
    else w.(h := w.h.(objects := w.h.objects[x.name := k.encodeSnapshot(x.snapshot)]), truth := w.truth[x.name := x.db])
  }

  /** A session moves its head once the store holds its commit. */
  ghost function Acknowledged(k: Coder, w: World, id: nat): World {
    if id !in w.sessions || w.sessions[id].pending.None? then w
    else
      var session, x := w.sessions[id], w.sessions[id].pending.value;
      var bytes := k.encodeSnapshot(x.snapshot);
      if x.name !in w.h.objects || w.h.objects[x.name] != bytes then w
      else
        w.(sessions := w.sessions[id := session.(
          version := x.snapshot.stateVersion, head := Some(RefOf(k.c, x.name, x.snapshot, bytes)), pending := None)])
  }

  // ----- checkpoints and restarts -----

  /** A history that is one full copy is its own checkpoint; any other is compacted into one. */
  function CheckpointFile(files: seq<LtxFile>, length: u64): Result<LtxFile> {
    if |files| == 1 && files[0].level == 9 then Ok(files[0]) else Compact(files, length)
  }

  lemma CheckpointFileRestores(files: seq<LtxFile>, last: nat, length: u64)
    requires Covers(files, 1, last)
    ensures CheckpointFile(files, length).Ok? && CheckpointFile(files, length).value.level == 9
    ensures |files| == 1 && files[0].level == 9 ==> CheckpointFile(files, length).value == files[0]
    ensures Covers([CheckpointFile(files, length).value], 1, last)
    ensures Database([CheckpointFile(files, length).value]) == Database(files)
  {
    CompactPreserves(files, last, length);
    assert |files| == 1 ==> files == [files[0]];
  }

  ghost function Checkpointed(k: Coder, w: World, e: Event): World
    requires e.WriteCheckpoint?
  {
    if e.name !in w.h.objects || e.name in w.h.checkpoints then w
    else
      var bytes := w.h.objects[e.name];
      var s := Decode(k.c, bytes);
      var r := Resolution(k.c, w.h, e.name, bytes, None);
      if s.None? || s.value.sqlite.parent.None? || r.None? then w
      else
        var files := r.value.sqlite.files;
        var file := CheckpointFile(files, e.length);
        if file.Err? then w
        else
          var p := Checkpoint(
            RefOf(k.c, e.name, s.value, bytes), SqliteSnapshot(r.value.sqlite.txid, None, [file.value]));
          w.(h := w.h.(checkpoints := w.h.checkpoints[e.name := k.encodeCheckpoint(p)]))
  }

  ghost function Restarted(k: Coder, w: World, e: Event): World
    requires e.Restart?
  {
    if e.name !in w.h.objects then w
    else
      var bytes := w.h.objects[e.name];
      var s := Decode(k.c, bytes);
      var r := Resolution(k.c, w.h, e.name, bytes, e.prefetched);
      if s.None? || r.None? then w
      else
        var head := if e.resumed then Some(RefOf(k.c, e.name, s.value, bytes)) else None;
        var captured := if e.resumed then r.value.sqlite.txid else 0;
        w.(sessions := w.sessions[e.id :=
          Session(e.epoch, s.value.stateVersion, head, captured, Database(r.value.sqlite.files), None)])
  }

  ghost function Step(k: Coder, w: World, e: Event): World {
    match e
    case Open(id, epoch) => w.(sessions := w.sessions[id := Session(epoch, 0, None, 0, map[], None)])
    case Capture(_, _, _, _, _, _) => Capturing(k, w, e)
    case Land(x) => Landed(k, w, x)
    case Acknowledge(id) => Acknowledged(k, w, id)
    case WriteCheckpoint(_, _) => Checkpointed(k, w, e)
    case Restart(_, _, _, _, _) => Restarted(k, w, e)
    case Drop(id) => w.(sessions := w.sessions - {id})
  }

  ghost function Run(k: Coder, events: seq<Event>): World
    decreases |events|
  {
    if events == [] then Initial else Step(k, Run(k, events[..|events| - 1]), events[|events| - 1])
  }

  // ----- what the surroundings promise -----

  /** Litestream's side: each delta takes the database from just before its first transaction to its last
      one, each full copy holds the database as of its last transaction, and the local history continues
      the session's database (or, from transaction 0, starts from nothing). */
  ghost predicate Mirrors(replica: Replica, dbAt: nat -> Pages, session: Session) {
    && Named(replica) && Readable(replica)
    && (forall d | d in replica.deltas :: dbAt(d.first - 1) + d.data.pages == dbAt(d.last))
    && (forall d | d in replica.copies :: d.data.pages == dbAt(d.last))
    && dbAt(0) == map[]
    && (session.captured > 0 ==> dbAt(session.captured) == session.db)
  }

  /** A prefetched checkpoint is what the store holds beside its source, or a miss. */
  ghost predicate FromStore(h: History, prefetched: Option<Prefetched>) {
    prefetched.Some? && prefetched.value.bytes.Some? ==>
      && prefetched.value.source.name in h.checkpoints
      && prefetched.value.bytes.value == h.checkpoints[prefetched.value.source.name]
  }

  ghost predicate Honest(k: Coder, actor: string, w: World, e: Event) {
    match e
    case Capture(id, replica, _, dbAt, name, _) =>
      k.c.actorOf(name) == Some(actor) && (id in w.sessions ==> Mirrors(replica, dbAt, w.sessions[id]))
    case Restart(_, _, prefetched, _, _) => FromStore(w.h, prefetched)
    case _ => true
  }

  ghost predicate HonestRun(k: Coder, actor: string, events: seq<Event>) {
    forall i | 0 <= i < |events| :: Honest(k, actor, Run(k, events[..i]), events[i])
  }

  /** The session's position is where its head ends; without a head, nothing was captured. */
  ghost predicate Aligned(k: Coder, w: World, session: Session) {
    if session.head.None? then session.captured == 0
    else
      var name := session.head.value.name;
      name in w.h.objects && Decode(k.c, w.h.objects[name]).Some?
      && Decode(k.c, w.h.objects[name]).value.sqlite.txid == session.captured
  }

  /** A capture that continues the log while the session has moved past its head, as it does while a
      commit waits to be acknowledged. */
  ghost predicate Skips(k: Coder, w: World, e: Event) {
    && e.Capture? && e.id in w.sessions && !Aligned(k, w, w.sessions[e.id])
    && Handed(k, w.sessions[e.id], e).Some?
    && Handed(k, w.sessions[e.id], e).value.snapshot.sqlite.parent.Some?
  }

  ghost predicate GapFree(k: Coder, events: seq<Event>) {
    forall i | 0 <= i < |events| :: !Skips(k, Run(k, events[..i]), events[i])
  }

  // ----- the invariant -----

  ghost predicate Restorable(k: Coder, actor: string, w: World, name: string)
    requires name in w.h.objects
  {
    var bytes := w.h.objects[name];
    var s := Decode(k.c, bytes);
    && k.c.actorOf(name) == Some(actor)
    && s.Some?
    && SameActor(k.c, s.value, name)
    && name in w.truth
    && var plain := Trace(k.c, w.h.Plain(), RefOf(k.c, name, s.value, bytes), s.value, None);
       plain.Some? && Database(Flatten(plain.value.segments)) == w.truth[name]
  }

  ghost predicate Checkpoints(k: Coder, w: World, name: string)
    requires name in w.h.checkpoints
  {
    && name in w.h.objects && name in w.truth
    && var s := Decode(k.c, w.h.objects[name]);
    && s.Some?
    && var accepted := DecodeCheckpoint(
           k.c, w.h.checkpoints[name], RefOf(k.c, name, s.value, w.h.objects[name]), s.value.sqlite.txid);
       accepted.Some? && Database(accepted.value.files) == w.truth[name]
  }

  /** Wherever it lands, the commit restores the database it was captured from. */
  ghost predicate Restores(k: Coder, actor: string, w: World, x: Write) {
    && k.c.actorOf(x.name) == Some(actor)
    && x.snapshot.WellFormed() && SameActor(k.c, x.snapshot, x.name)
    && var plain := Trace(k.c, w.h.Plain(), RefOf(k.c, x.name, x.snapshot, k.encodeSnapshot(x.snapshot)), x.snapshot, None);
       plain.Some? && Database(Flatten(plain.value.segments)) == x.db
  }

  ghost predicate HeadSound(k: Coder, w: World, session: Session) {
    session.head.Some? ==>
      var name := session.head.value.name;
      && name in w.h.objects && name in w.truth
      && var s := Decode(k.c, w.h.objects[name]);
         && s.Some?
         && RefOf(k.c, name, s.value, w.h.objects[name]) == session.head.value
         && s.value.stateVersion == session.version
         && s.value.sqlite.txid <= session.captured
         && (s.value.sqlite.txid == session.captured ==> w.truth[name] == session.db)
  }

  ghost predicate PendingSound(w: World, session: Session) {
    session.pending.Some? ==>
      var x := session.pending.value;
      && x in w.writes && x.snapshot.sqlite.txid <= session.captured
      && (x.snapshot.sqlite.txid == session.captured ==> x.db == session.db)
  }

  /** What the store holds. */
  ghost predicate Stored(k: Coder, actor: string, w: World) {
    && w.h.unreachable == {}
    && (forall name | name in w.h.objects :: Restorable(k, actor, w, name))
    && (forall name | name in w.h.checkpoints :: Checkpoints(k, w, name))
  }

  ghost predicate Inv(k: Coder, actor: string, w: World) {
    && Stored(k, actor, w)
    && (forall x | x in w.writes :: Restores(k, actor, w, x))
    && (forall id | id in w.sessions :: HeadSound(k, w, w.sessions[id]) && PendingSound(w, w.sessions[id]))
  }

  lemma StoreIsSound(k: Coder, actor: string, w: World)
    requires Stored(k, actor, w)
    ensures Faithful(k.c, w.h) && Sound(k.c, w.h)
  {
    forall o | o in w.h.objects && o in w.h.checkpoints
      ensures var s := Decode(k.c, w.h.objects[o]);
        s.Some? ==>
          && Compacts(k.c, w.h, RefOf(k.c, o, s.value, w.h.objects[o]), s.value, w.h.checkpoints[o])
          && DecodeCheckpoint(
               k.c, w.h.checkpoints[o], RefOf(k.c, o, s.value, w.h.objects[o]), s.value.sqlite.txid).Some?
    {
      assert Restorable(k, actor, w, o) && Checkpoints(k, w, o);
      CheckpointIsFaithful(k, actor, w, o);
    }
  }

  lemma PlainRestores(k: Coder, actor: string, w: World, name: string)
    requires name in w.h.objects && Restorable(k, actor, w, name)
    ensures var plain := Resolution(k.c, w.h.Plain(), name, w.h.objects[name], None);
      plain.Some? && Database(plain.value.sqlite.files) == w.truth[name]
  {
  }

  lemma CheckpointIsFaithful(k: Coder, actor: string, w: World, name: string)
    requires name in w.h.objects && Restorable(k, actor, w, name)
    requires name in w.h.checkpoints && Checkpoints(k, w, name)
    ensures var s := Decode(k.c, w.h.objects[name]).value;
      var reference := RefOf(k.c, name, s, w.h.objects[name]);
      && Compacts(k.c, w.h, reference, s, w.h.checkpoints[name])
      && DecodeCheckpoint(k.c, w.h.checkpoints[name], reference, s.sqlite.txid).Some?
  {
  }

  lemma ProbesAreSound(k: Coder, actor: string, w: World, name: string, prefetched: Option<Prefetched>)
    requires name in w.h.objects && Restorable(k, actor, w, name)
    requires name in w.h.checkpoints ==> Checkpoints(k, w, name)
    requires FromStore(w.h, prefetched)
    ensures var s := Decode(k.c, w.h.objects[name]).value;
      var reference := RefOf(k.c, name, s, w.h.objects[name]);
      && StartsFaithful(k.c, w.h, reference, s, Applicable(prefetched, reference))
      && StartsSound(k.c, w.h, reference, s, Applicable(prefetched, reference))
  {
    var s := Decode(k.c, w.h.objects[name]).value;
    var reference := RefOf(k.c, name, s, w.h.objects[name]);
    var probe := ProbeOf(w.h, name, Applicable(prefetched, reference));
    if probe.Found? {
      assert name in w.h.checkpoints && probe.bytes == w.h.checkpoints[name];
      CheckpointIsFaithful(k, actor, w, name);
    }
  }

  /** Restoring any stored object, by any route, gives the database it was captured from. */
  lemma RestoreIsExact(k: Coder, actor: string, w: World, name: string, prefetched: Option<Prefetched>)
    requires Stored(k, actor, w) && name in w.h.objects && FromStore(w.h, prefetched)
    ensures var r := Resolution(k.c, w.h, name, w.h.objects[name], prefetched);
      && r.Some?
      && Decode(k.c, w.h.objects[name]).Some?
      && r.value.sqlite.txid == Decode(k.c, w.h.objects[name]).value.sqlite.txid
      && Covers(r.value.sqlite.files, 1, r.value.sqlite.txid)
      && r.value.sqlite.txid < U64_MAX
      && name in w.truth
      && Database(r.value.sqlite.files) == w.truth[name]
  {
    var bytes := w.h.objects[name];
    StoreIsSound(k, actor, w);
    assert Restorable(k, actor, w, name);
    ProbesAreSound(k, actor, w, name, prefetched);
    PlainRestores(k, actor, w, name);
    ResolutionTransparent(k.c, w.h, name, bytes, prefetched);
    ResolutionStandsAlone(k.c, w.h, name, bytes, prefetched, 1);
  }

  /** More objects never change a walk that already succeeds. */
  lemma {:induction false} TraceExtends(
    c: Codec, h: History, h': History, reference: SnapshotRef, current: StateSnapshot)
    requires current.WellFormed()
    requires forall o | o in h.objects :: o in h'.objects && h'.objects[o] == h.objects[o]
    requires Trace(c, h.Plain(), reference, current, None).Some?
    ensures Trace(c, h'.Plain(), reference, current, None) == Trace(c, h.Plain(), reference, current, None)
    decreases current.stateVersion
  {
    if current.sqlite.parent.Some? {
      assert ParentOf(c, h'.Plain(), current) == ParentOf(c, h.Plain(), current);
      TraceExtends(c, h, h', current.sqlite.parent.value, ParentOf(c, h.Plain(), current).value);
    }
  }

  // ----- captures -----

  ghost predicate Mirrored(f: LtxFile, dbAt: nat -> Pages) {
    f.first > 0 && dbAt(f.first - 1) + f.data.pages == dbAt(f.last)
  }

  lemma {:induction false} MirrorReplay(files: seq<LtxFile>, dbAt: nat -> Pages, first: nat, last: nat)
    requires Covers(files, first, last) && first > 0
    requires forall f | f in files :: Mirrored(f, dbAt)
    ensures Replay(dbAt(first - 1), files) == dbAt(last)
  {
    var head, tail := files[0], files[1..];
    assert head in files;
    if tail != [] {
      TailCovers(files, first, last);
      hide Covers;
      MirrorReplay(tail, dbAt, head.last + 1, last);
    }
  }

  lemma DeltaMirrors(replica: Replica, dbAt: nat -> Pages, session: Session, e: Entry)
    requires Mirrors(replica, dbAt, session) && e in replica.deltas
    ensures Mirrored(Load(0, e), dbAt)
  {
  }

  lemma CopyMirrors(replica: Replica, dbAt: nat -> Pages, session: Session, e: Entry)
    requires Mirrors(replica, dbAt, session) && e in replica.copies
    ensures Mirrored(Load(9, e), dbAt)
  {
    assert map[] + e.data.pages == e.data.pages;
  }

  lemma ListingMirrors(replica: Replica, dbAt: nat -> Pages, session: Session, level: nat, txid: nat)
    requires Mirrors(replica, dbAt, session) && (level == 0 || level == 9)
    ensures var entries := if level == 9 then replica.copies else replica.deltas;
      forall f | f in Listing(entries, level, session.captured, txid) :: Mirrored(f, dbAt)
  {
    hide Listing, Mirrors, Mirrored;
    var entries := if level == 9 then replica.copies else replica.deltas;
    ListingMembers(entries, level, session.captured, txid);
    forall f | f in Listing(entries, level, session.captured, txid) ensures Mirrored(f, dbAt) {
      var e :| e in entries && f == Load(level, e);
      if level == 9 { CopyMirrors(replica, dbAt, session, e); } else { DeltaMirrors(replica, dbAt, session, e); }
    }
  }

  lemma CollectedMirrors(replica: Replica, dbAt: nat -> Pages, session: Session, txid: u64)
    requires Mirrors(replica, dbAt, session)
    requires Collected(replica, session.captured, txid).Ok?
    ensures forall f | f in Collected(replica, session.captured, txid).value :: Mirrored(f, dbAt)
  {
    var after := session.captured;
    ListingMirrors(replica, dbAt, session, 9, txid);
    ListingMirrors(replica, dbAt, session, 0, txid);
    DeltasValid(replica, after, txid);
    AssembleMembers(
      Listing(replica.copies, 9, after, txid), Listing(replica.deltas, 0, after, txid), after, txid);
  }

  /** From an aligned session a non-empty capture always links into a commit that passes validation: the
      head it needs is there, and only the version counter or an unusable request id can still stop it. */
  lemma CaptureLinks(k: Coder, w: World, session: Session, e: Event)
    requires e.Capture? && Mirrors(e.replica, e.dbAt, session) && HeadSound(k, w, session) && Aligned(k, w, session)
    requires session.epoch > 0 && session.version < U64_MAX && ValidRequestId(e.requestId) && Moves(session, e)
    ensures Captured(session, e).Some?
  {
    CollectedCovers(e.replica, session.captured, e.txid);
  }

  lemma CaptureCovers(session: Session, e: Event)
    requires e.Capture? && Mirrors(e.replica, e.dbAt, session) && Captured(session, e).Some?
    ensures var sqlite := Captured(session, e).value.sqlite;
      && session.captured < e.txid
      && Collected(e.replica, session.captured, e.txid) == Ok(sqlite.files)
      && Covers(sqlite.files, sqlite.files[0].first, e.txid)
      && (sqlite.parent.None? ==> sqlite.files[0].first == 1)
      && (sqlite.parent.Some? ==> sqlite.parent == session.head && sqlite.files[0].first == session.captured + 1)
  {
    CollectedCovers(e.replica, session.captured, e.txid);
  }

  /** A capture's files take the database they start from to the one they were captured from. */
  lemma CaptureReplays(session: Session, e: Event)
    requires e.Capture? && Mirrors(e.replica, e.dbAt, session) && Captured(session, e).Some?
    ensures var sqlite := Captured(session, e).value.sqlite;
      && (sqlite.parent.None? ==> Replay(map[], sqlite.files) == e.dbAt(e.txid))
      && (sqlite.parent.Some? && session.captured > 0 ==> Replay(session.db, sqlite.files) == e.dbAt(e.txid))
  {
    hide Captured;
    var files := Captured(session, e).value.sqlite.files;
    CaptureCovers(session, e);
    CollectedMirrors(e.replica, e.dbAt, session, e.txid);
    MirrorReplay(files, e.dbAt, files[0].first, e.txid);
  }

  /** The head of an aligned session is a parent the walk accepts, and restores the session's database. */
  lemma HeadIsParent(k: Coder, actor: string, w: World, session: Session, s: StateSnapshot)
    requires Stored(k, actor, w) && HeadSound(k, w, session) && Aligned(k, w, session) && session.head.Some?
    requires s.WellFormed() && s.sqlite.parent == session.head && s.sqlite.files[0].first == session.captured + 1
    ensures var parent := ParentOf(k.c, w.h.Plain(), s);
      && parent.Some?
      && var older := Trace(k.c, w.h.Plain(), session.head.value, parent.value, None);
         older.Some? && Database(Flatten(older.value.segments)) == session.db
  {
    assert Restorable(k, actor, w, session.head.value.name);
  }

  lemma RootCaptureRestores(c: Codec, h: History, reference: SnapshotRef, s: StateSnapshot)
    requires s.WellFormed() && s.sqlite.parent.None?
    ensures var plain := Trace(c, h.Plain(), reference, s, None);
      plain.Some? && Database(Flatten(plain.value.segments)) == Replay(map[], s.sqlite.files)
  {
    hide Flatten, Replay;
    FlattenOne(s.sqlite.files);
  }

  /** From an aligned session, or from transaction 1, a capture restores what it was captured from. */
  lemma CaptureRestores(k: Coder, actor: string, w: World, session: Session, e: Event)
    requires Stored(k, actor, w) && HeadSound(k, w, session) && e.Capture? && Mirrors(e.replica, e.dbAt, session)
    requires k.c.actorOf(e.name) == Some(actor) && Handed(k, session, e).Some?
    requires Aligned(k, w, session) || Handed(k, session, e).value.snapshot.sqlite.parent.None?
    ensures Restores(k, actor, w, Handed(k, session, e).value)
  {
    hide Stored, HeadSound, Aligned, Mirrors, Captured, Trace, Flatten, Replay, Database;
    var s := Captured(session, e).value;
    var reference := RefOf(k.c, e.name, s, k.encodeSnapshot(s));
    CaptureReplays(session, e);
    CaptureCovers(session, e);
    if s.sqlite.parent.None? {
      RootCaptureRestores(k.c, w.h, reference, s);
    } else {
      HeadIsParent(k, actor, w, session, s);
      TraceThroughParent(k.c, w.h.Plain(), reference, s, ParentOf(k.c, w.h.Plain(), s).value, None);
      PositiveHead(k, w, session);
    }
  }

  lemma PositiveHead(k: Coder, w: World, session: Session)
    requires HeadSound(k, w, session) && session.head.Some?
    ensures session.captured > 0
  {
    var s := Decode(k.c, w.h.objects[session.head.value.name]).value;
    assert s.sqlite.files[|s.sqlite.files| - 1].Valid();
  }

  // ----- every step keeps the invariant -----

  /** No object ever changes or goes away. */
  ghost predicate Grows(w: World, w': World) {
    && (forall o | o in w.h.objects :: o in w'.h.objects && w'.h.objects[o] == w.h.objects[o])
    && (forall o | o in w.truth :: o in w.h.objects ==> o in w'.truth && w'.truth[o] == w.truth[o])
    && w.writes <= w'.writes
  }

  lemma RestorableExtends(k: Coder, actor: string, w: World, w': World, name: string)
    requires name in w.h.objects && Restorable(k, actor, w, name) && Grows(w, w')
    ensures Restorable(k, actor, w', name)
  {
    var s := Decode(k.c, w.h.objects[name]).value;
    TraceExtends(k.c, w.h, w'.h, RefOf(k.c, name, s, w.h.objects[name]), s);
  }

  lemma StepGrows(k: Coder, w: World, e: Event)
    ensures Grows(w, Step(k, w, e))
  {
    hide Capturing, Landed;
    if e.Capture? { CaptureGrows(k, w, e); }
    if e.Land? { LandGrows(k, w, e.write); }
  }

  lemma CaptureGrows(k: Coder, w: World, e: Event)
    requires e.Capture?
    ensures Grows(w, Capturing(k, w, e))
  {
    hide Handed, Moves;
  }

  lemma LandGrows(k: Coder, w: World, x: Write)
    ensures Grows(w, Landed(k, w, x))
  {
  }

  lemma RestoresExtends(k: Coder, actor: string, w: World, w': World, x: Write)
    requires Restores(k, actor, w, x) && Grows(w, w')
    ensures Restores(k, actor, w', x)
  {
    TraceExtends(k.c, w.h, w'.h, RefOf(k.c, x.name, x.snapshot, k.encodeSnapshot(x.snapshot)), x.snapshot);
  }

  /** Sessions and writes play no part in what the store holds. */
  lemma StoredIsStored(k: Coder, actor: string, w: World, w': World)
    requires Stored(k, actor, w) && w'.h == w.h && w'.truth == w.truth
    ensures Stored(k, actor, w')
  {
    forall name | name in w.h.objects ensures Restorable(k, actor, w', name) { assert Restorable(k, actor, w, name); }
    forall name | name in w.h.checkpoints ensures Checkpoints(k, w', name) { assert Checkpoints(k, w, name); }
  }

  lemma SessionsExtend(k: Coder, w: World, w': World, session: Session)
    requires HeadSound(k, w, session) && PendingSound(w, session) && Grows(w, w')
    ensures HeadSound(k, w', session) && PendingSound(w', session)
  {
  }

  /** A step that leaves the store alone and is sound about its own write and session. */
  lemma SessionStepKeepsInv(k: Coder, actor: string, w: World, w': World, id: nat)
    requires Inv(k, actor, w) && w'.h == w.h && w'.truth == w.truth && w.writes <= w'.writes
    requires forall x | x in w'.writes && x !in w.writes :: Restores(k, actor, w, x)
    requires forall j | j in w'.sessions && j != id :: j in w.sessions && w'.sessions[j] == w.sessions[j]
    requires id in w'.sessions ==> HeadSound(k, w', w'.sessions[id]) && PendingSound(w', w'.sessions[id])
    ensures Inv(k, actor, w')
  {
    StoredIsStored(k, actor, w, w');
    forall x | x in w'.writes ensures Restores(k, actor, w', x) { RestoresExtends(k, actor, w, w', x); }
    forall j | j in w'.sessions ensures HeadSound(k, w', w'.sessions[j]) && PendingSound(w', w'.sessions[j]) {
      if j != id { SessionsExtend(k, w, w', w.sessions[j]); }
    }
  }

  /** The session moves on past its head and its pending commit. */
  lemma MovedSessionIsSound(k: Coder, w: World, w': World, session: Session, moved: Session)
    requires HeadSound(k, w, session) && PendingSound(w, session)
    requires w'.h == w.h && w'.truth == w.truth && w.writes <= w'.writes
    requires moved == session.(captured := moved.captured, db := moved.db, pending := moved.pending)
    requires session.captured < moved.captured
    requires moved.pending == session.pending || PendingSound(w', moved)
    ensures HeadSound(k, w', moved) && PendingSound(w', moved)
  {
  }

  lemma CaptureMovesOn(session: Session, e: Event)
    requires e.Capture? && Mirrors(e.replica, e.dbAt, session) && Moves(session, e)
    ensures session.captured < e.txid
  {
    CollectedCovers(e.replica, session.captured, e.txid);
  }

  lemma HandedIsPending(k: Coder, w: World, e: Event)
    requires e.Capture? && e.id in w.sessions && Moves(w.sessions[e.id], e)
    ensures var w' := Capturing(k, w, e);
      && e.id in w'.sessions
      && (Handed(k, w.sessions[e.id], e).Some? ==> PendingSound(w', w'.sessions[e.id]))
  {
  }

  lemma CaptureKeepsInv(k: Coder, actor: string, w: World, e: Event)
    requires Inv(k, actor, w) && e.Capture? && Honest(k, actor, w, e) && !Skips(k, w, e)
    ensures Inv(k, actor, Capturing(k, w, e))
  {
    hide Restores, Stored, HeadSound, PendingSound, Mirrors, Moves, Handed, Aligned;
    var w' := Capturing(k, w, e);
    if w' != w {
      HandedIsPending(k, w, e);
      var session := w.sessions[e.id];
      CaptureMovesOn(session, e);
      var x := Handed(k, session, e);
      if x.Some? { CaptureRestores(k, actor, w, session, e); }
      MovedSessionIsSound(k, w, w', session, w'.sessions[e.id]);
      SessionStepKeepsInv(k, actor, w, w', e.id);
    }
  }

  lemma LandedIsRestorable(k: Coder, actor: string, w: World, x: Write)
    requires Lawful(k) && Inv(k, actor, w) && x in w.writes && x.name !in w.h.objects
    ensures Restorable(k, actor, Landed(k, w, x), x.name)
  {
    hide Stored, HeadSound, PendingSound;
    var w' := Landed(k, w, x);
    assert k.c.snapshot(k.encodeSnapshot(x.snapshot)) == Some(x.snapshot);
    assert Restores(k, actor, w, x);
    RestoresExtends(k, actor, w, w', x);
  }

  lemma LandKeepsStored(k: Coder, actor: string, w: World, x: Write)
    requires Lawful(k) && Inv(k, actor, w) && x in w.writes && x.name !in w.h.objects
    ensures Stored(k, actor, Landed(k, w, x))
  {
    hide Restores, Restorable, HeadSound, PendingSound;
    var w' := Landed(k, w, x);
    StepGrows(k, w, Land(x));
    forall name | name in w'.h.objects ensures Restorable(k, actor, w', name) {
      if name == x.name {
        LandedIsRestorable(k, actor, w, x);
      } else {
        assert Restorable(k, actor, w, name);
        RestorableExtends(k, actor, w, w', name);
      }
    }
    forall name | name in w'.h.checkpoints ensures Checkpoints(k, w', name) { assert Checkpoints(k, w, name); }
  }

  lemma LandKeepsInv(k: Coder, actor: string, w: World, x: Write)
    requires Lawful(k) && Inv(k, actor, w)
    ensures Inv(k, actor, Landed(k, w, x))
  {
    hide Restores, Stored, HeadSound, PendingSound;
    var w' := Landed(k, w, x);
    StepGrows(k, w, Land(x));
    if w' != w {
      LandKeepsStored(k, actor, w, x);
      forall y | y in w'.writes ensures Restores(k, actor, w', y) { RestoresExtends(k, actor, w, w', y); }
      forall j | j in w'.sessions ensures HeadSound(k, w', w'.sessions[j]) && PendingSound(w', w'.sessions[j]) {
        SessionsExtend(k, w, w', w.sessions[j]);
      }
    }
  }

  /** What is stored under a commit's name and bytes is that commit, with its database. */
  lemma StoredWriteIsTrue(k: Coder, actor: string, w: World, x: Write)
    requires Lawful(k) && Inv(k, actor, w) && x in w.writes
    requires x.name in w.h.objects && w.h.objects[x.name] == k.encodeSnapshot(x.snapshot)
    ensures Decode(k.c, w.h.objects[x.name]) == Some(x.snapshot)
    ensures x.name in w.truth && w.truth[x.name] == x.db
  {
    assert k.c.snapshot(k.encodeSnapshot(x.snapshot)) == Some(x.snapshot);
    assert Restores(k, actor, w, x) && Restorable(k, actor, w, x.name);
  }

  lemma AcknowledgeKeepsInv(k: Coder, actor: string, w: World, id: nat)
    requires Lawful(k) && Inv(k, actor, w)
    ensures Inv(k, actor, Acknowledged(k, w, id))
  {
    var w' := Acknowledged(k, w, id);
    if w' != w {
      StoredWriteIsTrue(k, actor, w, w.sessions[id].pending.value);
      SessionStepKeepsInv(k, actor, w, w', id);
    }
  }

  /** A checkpoint over a whole history is accepted for its own source. */
  lemma AcceptsOwn(k: Coder, p: Checkpoint, txid: u64)
    requires Lawful(k) && Covers(p.sqlite.files, 1, txid) && txid < U64_MAX
    requires p.sqlite == SqliteSnapshot(txid, None, p.sqlite.files)
    ensures DecodeCheckpoint(k.c, k.encodeCheckpoint(p), p.source, txid) == Some(p.sqlite)
  {
    assert k.c.checkpoint(k.encodeCheckpoint(p)) == Some(p);
  }

  /** The file a checkpoint holds restores what the object it lies beside restores. */
  lemma CheckpointRecords(k: Coder, actor: string, w: World, e: Event)
    requires Lawful(k) && Stored(k, actor, w) && e.WriteCheckpoint?
    requires Checkpointed(k, w, e) != w
    ensures Checkpoints(k, Checkpointed(k, w, e), e.name)
  {
    var bytes := w.h.objects[e.name];
    var s := Decode(k.c, bytes).value;
    RestoreIsExact(k, actor, w, e.name, None);
    var files := Resolution(k.c, w.h, e.name, bytes, None).value.sqlite.files;
    CheckpointFileRestores(files, s.sqlite.txid, e.length);
    var file := CheckpointFile(files, e.length).value;
    var p := Checkpoint(RefOf(k.c, e.name, s, bytes), SqliteSnapshot(s.sqlite.txid, None, [file]));
    assert Checkpointed(k, w, e).h.checkpoints[e.name] == k.encodeCheckpoint(p);
    AcceptsOwn(k, p, s.sqlite.txid);
  }

  lemma CheckpointKeepsStored(k: Coder, actor: string, w: World, e: Event)
    requires Lawful(k) && Stored(k, actor, w) && e.WriteCheckpoint?
    ensures Stored(k, actor, Checkpointed(k, w, e))
  {
    var w' := Checkpointed(k, w, e);
    if w' != w {
      CheckpointRecords(k, actor, w, e);
      forall name | name in w'.h.objects ensures Restorable(k, actor, w', name) {
        assert Restorable(k, actor, w, name);
        RestorableExtends(k, actor, w, w', name);
      }
      forall name | name in w'.h.checkpoints ensures Checkpoints(k, w', name) {
        if name != e.name { assert Checkpoints(k, w, name); }
      }
    }
  }

  lemma CheckpointKeepsInv(k: Coder, actor: string, w: World, e: Event)
    requires Lawful(k) && Inv(k, actor, w) && e.WriteCheckpoint?
    ensures Inv(k, actor, Checkpointed(k, w, e))
  {
    var w' := Checkpointed(k, w, e);
    CheckpointKeepsStored(k, actor, w, e);
    forall x | x in w'.writes ensures Restores(k, actor, w', x) { RestoresExtends(k, actor, w, w', x); }
    forall j | j in w'.sessions ensures HeadSound(k, w', w'.sessions[j]) && PendingSound(w', w'.sessions[j]) {
      SessionsExtend(k, w, w', w.sessions[j]);
    }
  }

  /** Restarting from any stored object always succeeds and resumes with exactly its database. */
  lemma RestartKeepsInv(k: Coder, actor: string, w: World, e: Event)
    requires Inv(k, actor, w) && e.Restart? && Honest(k, actor, w, e)
    ensures Inv(k, actor, Restarted(k, w, e))
    ensures e.name in w.h.objects ==>
      var w' := Restarted(k, w, e);
      && e.id in w'.sessions && e.name in w.truth && w'.sessions[e.id].db == w.truth[e.name]
      && (e.resumed ==> Aligned(k, w', w'.sessions[e.id]))
  {
    if e.name in w.h.objects {
      RestoreIsExact(k, actor, w, e.name, e.prefetched);
      SessionStepKeepsInv(k, actor, w, Restarted(k, w, e), e.id);
    }
  }

  lemma StepKeepsInv(k: Coder, actor: string, w: World, e: Event)
    requires Lawful(k) && Inv(k, actor, w) && Honest(k, actor, w, e) && !Skips(k, w, e)
    ensures Inv(k, actor, Step(k, w, e))
  {
    hide Inv;
    match e
    case Open(id, _) => OpenKeepsInv(k, actor, w, e);
    case Capture(_, _, _, _, _, _) => CaptureKeepsInv(k, actor, w, e);
    case Land(x) => LandKeepsInv(k, actor, w, x);
    case Acknowledge(id) => AcknowledgeKeepsInv(k, actor, w, id);
    case WriteCheckpoint(_, _) => CheckpointKeepsInv(k, actor, w, e);
    case Restart(_, _, _, _, _) => RestartKeepsInv(k, actor, w, e);
    case Drop(id) => DropKeepsInv(k, actor, w, id);
  }

  lemma OpenKeepsInv(k: Coder, actor: string, w: World, e: Event)
    requires Inv(k, actor, w) && e.Open?
    ensures Inv(k, actor, Step(k, w, e))
  {
    SessionStepKeepsInv(k, actor, w, Step(k, w, e), e.id);
  }

  lemma DropKeepsInv(k: Coder, actor: string, w: World, id: nat)
    requires Inv(k, actor, w)
    ensures Inv(k, actor, w.(sessions := w.sessions - {id}))
  {
    SessionStepKeepsInv(k, actor, w, w.(sessions := w.sessions - {id}), id);
  }

  // ----- every run -----

  lemma {:induction false} RunKeepsInv(k: Coder, actor: string, events: seq<Event>)
    requires Lawful(k) && HonestRun(k, actor, events) && GapFree(k, events)
    ensures Inv(k, actor, Run(k, events))
    decreases |events|
  {
    if events != [] {
      var init, e := events[..|events| - 1], events[|events| - 1];
      assert forall i | 0 <= i < |init| :: init[..i] == events[..i];
      RunKeepsInv(k, actor, init);
      StepKeepsInv(k, actor, Run(k, init), e);
    }
  }

  /** The main result. In every run whose captures never skip past their head, whatever sessions live
      side by side and whenever their commits land, restoring any stored object, with whatever
      checkpoints lie in the store or were prefetched from it, succeeds and yields the database and the
      transaction that were captured under that name. */
  lemma EveryRestoreIsExact(
    k: Coder, actor: string, events: seq<Event>, name: string, prefetched: Option<Prefetched>)
    requires Lawful(k) && HonestRun(k, actor, events) && GapFree(k, events)
    requires var w := Run(k, events); name in w.h.objects && FromStore(w.h, prefetched)
    ensures var w := Run(k, events);
      var r := Resolution(k.c, w.h, name, w.h.objects[name], prefetched);
      && r.Some?
      && Decode(k.c, w.h.objects[name]).Some?
      && r.value.sqlite.txid == Decode(k.c, w.h.objects[name]).value.sqlite.txid
      && Covers(r.value.sqlite.files, 1, r.value.sqlite.txid)
      && name in w.truth
      && Database(r.value.sqlite.files) == w.truth[name]
  {
    RunKeepsInv(k, actor, events);
    RestoreIsExact(k, actor, Run(k, events), name, prefetched);
  }

  /** What a session has acknowledged is stored, and restores to what the session captured. */
  lemma AcknowledgedIsDurable(k: Coder, actor: string, events: seq<Event>, id: nat)
    requires Lawful(k) && HonestRun(k, actor, events) && GapFree(k, events)
    requires var w := Run(k, events); id in w.sessions && w.sessions[id].head.Some?
    ensures var w := Run(k, events);
      var name := w.sessions[id].head.value.name;
      && name in w.h.objects && name in w.truth
      && (Aligned(k, w, w.sessions[id]) ==> w.truth[name] == w.sessions[id].db)
  {
    RunKeepsInv(k, actor, events);
    assert HeadSound(k, Run(k, events), Run(k, events).sessions[id]);
  }

  lemma {:induction false} RunGrows(k: Coder, events: seq<Event>, n: nat)
    requires n <= |events|
    ensures Grows(Run(k, events[..n]), Run(k, events))
    decreases |events|
  {
    if n == |events| {
      assert events[..n] == events;
    } else {
      var init := events[..|events| - 1];
      assert init[..n] == events[..n];
      RunGrows(k, init, n);
      StepGrows(k, Run(k, init), events[|events| - 1]);
    }
  }

  /** What was stored under a name stays what it was, for the rest of the run. */
  lemma CommittedStateIsPermanent(k: Coder, actor: string, events: seq<Event>, n: nat, name: string)
    requires Lawful(k) && HonestRun(k, actor, events) && GapFree(k, events)
    requires n <= |events| && name in Run(k, events[..n]).h.objects
    ensures var w, w' := Run(k, events[..n]), Run(k, events);
      && name in w.truth && name in w'.truth && w'.truth[name] == w.truth[name]
      && name in w'.h.objects && w'.h.objects[name] == w.h.objects[name]
  {
    var init := events[..n];
    assert forall i | 0 <= i < |init| :: init[..i] == events[..i];
    RunKeepsInv(k, actor, init);
    assert Restorable(k, actor, Run(k, init), name);
    RunGrows(k, events, n);
  }

  // ----- captures that skip past their head -----

  /** A commit whose parent is stored and ends somewhere other than where the commit begins. */
  ghost predicate Severed(k: Coder, w: World, x: Write) {
    && x in w.writes && x.snapshot.WellFormed() && x.snapshot.sqlite.parent.Some?
    && var name := x.snapshot.sqlite.parent.value.name;
       && name in w.h.objects && Decode(k.c, w.h.objects[name]).Some?
       && Decode(k.c, w.h.objects[name]).value.sqlite.txid + 1 != x.snapshot.sqlite.files[0].first
  }

  lemma SkippingSevers(k: Coder, w: World, e: Event)
    requires Skips(k, w, e) && HeadSound(k, w, w.sessions[e.id]) && Mirrors(e.replica, e.dbAt, w.sessions[e.id])
    ensures Severed(k, Capturing(k, w, e), Handed(k, w.sessions[e.id], e).value)
  {
    CaptureCovers(w.sessions[e.id], e);
  }

  lemma SeveredStays(k: Coder, w: World, w': World, x: Write)
    requires Severed(k, w, x) && Grows(w, w')
    ensures Severed(k, w', x)
  {
  }

  lemma SeveredNeverRestores(k: Coder, actor: string, w: World, x: Write)
    requires Severed(k, w, x)
    ensures !Restores(k, actor, w, x)
  {
    assert ParentOf(k.c, w.h.Plain(), x.snapshot).None?;
  }

  ghost predicate AllRestore(k: Coder, actor: string, w: World) {
    forall x | x in w.writes :: Restores(k, actor, w, x)
  }

  ghost predicate SomeSevered(k: Coder, w: World) {
    exists x :: Severed(k, w, x)
  }

  lemma StepSevers(k: Coder, actor: string, w: World, e: Event)
    requires Inv(k, actor, w) && Honest(k, actor, w, e) && Skips(k, w, e)
    ensures SomeSevered(k, Step(k, w, e))
  {
    hide Stored, Restores, HeadSound, PendingSound, Mirrors, Severed;
    SkippingSevers(k, w, e);
  }

  lemma SomeSeveredStays(k: Coder, w: World, e: Event)
    requires SomeSevered(k, w)
    ensures SomeSevered(k, Step(k, w, e))
  {
    hide Severed, Step;
    var x :| Severed(k, w, x);
    StepGrows(k, w, e);
    SeveredStays(k, w, Step(k, w, e), x);
  }

  lemma {:induction false} RunSevers(k: Coder, actor: string, events: seq<Event>)
    requires Lawful(k) && HonestRun(k, actor, events) && !GapFree(k, events)
    ensures SomeSevered(k, Run(k, events))
    decreases |events|
  {
    hide Inv, Honest, Skips, SomeSevered, Step, Lawful;
    var init, e := events[..|events| - 1], events[|events| - 1];
    assert forall i | 0 <= i < |init| :: init[..i] == events[..i];
    if GapFree(k, init) {
      RunKeepsInv(k, actor, init);
      StepSevers(k, actor, Run(k, init), e);
    } else {
      RunSevers(k, actor, init);
      SomeSeveredStays(k, Run(k, init), e);
    }
  }

  /** In a run, every commit that sessions handed to the store restores what it was captured from if and
      only if no capture that continued the log was taken while its session had moved past its head. */
  lemma CommitsRestoreExactly(k: Coder, actor: string, events: seq<Event>)
    requires Lawful(k) && HonestRun(k, actor, events)
    ensures AllRestore(k, actor, Run(k, events)) <==> GapFree(k, events)
  {
    if GapFree(k, events) {
      RunKeepsInv(k, actor, events);
    } else {
      RunSevers(k, actor, events);
      var x :| Severed(k, Run(k, events), x);
      SeveredNeverRestores(k, actor, Run(k, events), x);
    }
  }
}
