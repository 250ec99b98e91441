/** Resolving a snapshot into the complete list of files its database is restored from: parent
    links are walked backwards, and a stored or prefetched checkpoint may end the walk early. */
module Recovery {
  import opened Wrappers
  import opened Ltx
  import opened StateLog

  type Blob = seq<bv8>

  datatype Checkpoint = Checkpoint(source: SnapshotRef, sqlite: SqliteSnapshot)

  /** What lies outside the walk: parsing (before validation), the checksum, and the actor that
      an object name belongs to. Nothing is assumed about any of them here. */
  datatype Codec = Codec(
    snapshot: Blob -> Option<StateSnapshot>,
    checkpoint: Blob -> Option<Checkpoint>,
    digest: Blob -> string,
    actorOf: string -> Option<string>)

  /** A snapshot store: objects, the checkpoint beside each object, and the objects whose
      checkpoint cannot be probed. */
  datatype History = History(
    objects: map<string, Blob>, checkpoints: map<string, Blob>, unreachable: set<string>)
  {
    /** The same objects without any checkpoint. */
    function Plain(): History {
      History(objects, map[], {})
    }
  }

  datatype Prefetched = Prefetched(source: SnapshotRef, bytes: Option<Blob>)

  datatype Resolved = Resolved(
    sqlite: SqliteSnapshot, checkpointVersion: u64, checkpoint: bool, parents: nat,
    baseBytes: nat, logBytes: nat)

  function RefOf(c: Codec, name: string, s: StateSnapshot, bytes: Blob): SnapshotRef {
    SnapshotRef(name, s.stateVersion, s.requestId, c.digest(bytes))
  }

  ghost function Decode(c: Codec, bytes: Blob): (r: Option<StateSnapshot>)
    ensures r.Some? ==> r.value.WellFormed()
  {
    var parsed := c.snapshot(bytes);
    if parsed.Some? && parsed.value.WellFormed() then parsed else None
  }

  predicate SameActor(c: Codec, s: StateSnapshot, name: string) {
    s.sqlite.parent.Some? ==>
      && c.actorOf(name).Some?
      && c.actorOf(name) == c.actorOf(s.sqlite.parent.value.name)
  }

  ghost function DecodeCheckpoint(c: Codec, bytes: Blob, source: SnapshotRef, txid: u64)
    : (r: Option<SqliteSnapshot>)
    ensures r.Some? ==> Covers(r.value.files, 1, txid) && txid < U64_MAX
  {
    var parsed := c.checkpoint(bytes);
    if && parsed.Some?
       && parsed.value.source == source
       && parsed.value.sqlite.WellFormed(source.stateVersion)
       && parsed.value.sqlite.parent.None?
       && parsed.value.sqlite.txid == txid
    then Some(parsed.value.sqlite) else None
  }

  /** The verified parent of a dependent commit. */
  ghost function ParentOf(c: Codec, h: History, current: StateSnapshot): (r: Option<StateSnapshot>)
    requires current.WellFormed() && current.sqlite.parent.Some?
    ensures r.Some? ==>
      var parent := current.sqlite.parent.value;
      && r.value.WellFormed()
      && r.value.stateVersion < current.stateVersion
      && parent.name in h.objects
      && Decode(c, h.objects[parent.name]) == r
      && RefOf(c, parent.name, r.value, h.objects[parent.name]) == parent
      && SameActor(c, r.value, parent.name)
      && r.value.sqlite.txid + 1 == current.sqlite.files[0].first
  {
    var parent := current.sqlite.parent.value;
    if parent.name !in h.objects then None
    else
      var bytes := h.objects[parent.name];
      var s := Decode(c, bytes);
      if && c.digest(bytes) == parent.digest
         && s.Some?
         && SameActor(c, s.value, parent.name)
         && s.value.stateVersion == parent.stateVersion
         && s.value.requestId == parent.requestId
         && s.value.sqlite.txid + 1 == current.sqlite.files[0].first
      then s else None
  }

  /** Where a walk ended: the file lists it gathered, newest first, and how it stopped. */
  datatype Trail = Trail(segments: seq<seq<LtxFile>>, last: SnapshotRef, checkpoint: bool, parents: nat)

  datatype Probe = Unavailable | Absent | Found(bytes: Blob)

  function ProbeOf(h: History, name: string, prefetched: Option<Option<Blob>>): Probe {
    match prefetched
    case Some(Some(bytes)) => Found(bytes)
    case Some(None) => Absent
    case None =>
      if name in h.unreachable then Unavailable
      else if name in h.checkpoints then Found(h.checkpoints[name])
      else Absent
  }

  /** The walk from `current`. State versions strictly fall along verified parents, so it ends
      on every history, however its links are forged. */
  ghost function Trace(
    c: Codec, h: History, reference: SnapshotRef, current: StateSnapshot, prefetched: Option<Option<Blob>>)
    : (r: Option<Trail>)
    requires current.WellFormed()
    ensures r.Some? ==> r.value.segments != []
    decreases current.stateVersion
  {
    var files := current.sqlite.files;
    if current.sqlite.parent.None? then Some(Trail([files], reference, false, 0))
    else
      match ProbeOf(h, reference.name, prefetched)
      case Unavailable => None
      case Found(bytes) =>
        var sqlite := DecodeCheckpoint(c, bytes, reference, current.sqlite.txid);
        if sqlite.None? then None else Some(Trail([sqlite.value.files], reference, true, 0))
      case Absent =>
        var parent := ParentOf(c, h, current);
        if parent.None? then None
        else
          var rest := Trace(c, h, current.sqlite.parent.value, parent.value, None);
          if rest.None? then None
          else Some(rest.value.(segments := [files] + rest.value.segments,
                                parents := rest.value.parents + 1))
  }

  /** Newest-first lists in replay order. */
  function Flatten(segments: seq<seq<LtxFile>>): seq<LtxFile> {
    if segments == [] then [] else Flatten(segments[1..]) + segments[0]
  }

  function Finish(txid: u64, t: Trail): Resolved
    requires t.segments != []
  {
    var base := Bytes(t.segments[|t.segments| - 1]);
    var files := Flatten(t.segments);
    BaseWithinTotal(t.segments);
    Resolved(
      SqliteSnapshot(txid, None, files), t.last.stateVersion, t.checkpoint, t.parents,
      base, Bytes(files) - base)
  }

  lemma {:induction false} BaseWithinTotal(segments: seq<seq<LtxFile>>)
    requires segments != []
    ensures Bytes(segments[|segments| - 1]) <= Bytes(Flatten(segments))
  {
    hide Replay, Bytes;
    var rest := segments[1..];
    ReplayConcat(map[], Flatten(rest), segments[0]);
    if rest == [] {
      assert Flatten(segments) == [] + segments[0] == segments[0];
    } else {
      BaseWithinTotal(rest);
    }
  }

  /** A prefetched checkpoint only counts for the very snapshot it was fetched for. */
  function Applicable(prefetched: Option<Prefetched>, reference: SnapshotRef): Option<Option<Blob>> {
    if prefetched.Some? && prefetched.value.source == reference then Some(prefetched.value.bytes) else None
  }

  ghost function Resolution(
    c: Codec, h: History, name: string, bytes: Blob, prefetched: Option<Prefetched>) : (r: Option<Resolved>)
  {
    var s := Decode(c, bytes);
    if s.None? || !SameActor(c, s.value, name) then None
    else
      var reference := RefOf(c, name, s.value, bytes);
      var t := Trace(c, h, reference, s.value, Applicable(prefetched, reference));
      if t.None? then None else Some(Finish(s.value.sqlite.txid, t.value))
  }

  // ----- the loop -----

  method DecodeSnapshot(c: Codec, bytes: Blob) returns (r: Result<StateSnapshot>)
    ensures r.Ok? <==> Decode(c, bytes).Some?
    ensures r.Ok? ==> Decode(c, bytes) == Some(r.value)
  {
    var parsed := c.snapshot(bytes);
    if parsed.None? { return Err("malformed snapshot"); }
    var valid := Validate(parsed.value);
    if valid.Err? { return Err(valid.error); }
    return Ok(parsed.value);
  }

  method ReadCheckpoint(c: Codec, bytes: Blob, source: SnapshotRef, txid: u64)
    returns (r: Result<SqliteSnapshot>)
    ensures r.Ok? <==> DecodeCheckpoint(c, bytes, source, txid).Some?
    ensures r.Ok? ==> DecodeCheckpoint(c, bytes, source, txid) == Some(r.value)
  {
    var parsed := c.checkpoint(bytes);
    if parsed.None? { return Err("malformed checkpoint"); }
    var checkpoint := parsed.value;
    if checkpoint.source != source { return Err("checkpoint source mismatch"); }
    var valid := ValidateSqlite(checkpoint.sqlite, source.stateVersion);
    if valid.Err? { return Err(valid.error); }
    if checkpoint.sqlite.parent.Some? || checkpoint.sqlite.txid != txid {
      return Err("checkpoint transaction mismatch");
    }
    return Ok(checkpoint.sqlite);
  }

  method ReadParent(c: Codec, h: History, current: StateSnapshot) returns (r: Result<StateSnapshot>)
    requires current.WellFormed() && current.sqlite.parent.Some?
    ensures r.Ok? <==> ParentOf(c, h, current).Some?
    ensures r.Ok? ==> ParentOf(c, h, current) == Some(r.value)
  {
    var parent := current.sqlite.parent.value;
    if parent.name !in h.objects { return Err("SQLite dependency missing"); }
    var bytes := h.objects[parent.name];
    if c.digest(bytes) != parent.digest { return Err("snapshot checksum mismatch"); }
    r := DecodeSnapshot(c, bytes);
    if r.Err? { return; }
    var s := r.value;
    if !SameActor(c, s, parent.name) { return Err("SQLite dependency belongs to another actor"); }
    if s.stateVersion != parent.stateVersion || s.requestId != parent.requestId {
      return Err("SQLite dependency identity mismatch");
    }
    if s.sqlite.txid + 1 != current.sqlite.files[0].first {
      return Err("SQLite dependency transaction gap");
    }
  }

  /** The gathered lists and links put before the rest of a walk. */
  ghost function Extended(segments: seq<seq<LtxFile>>, parents: nat, rest: Option<Trail>): Option<Trail> {
    if rest.None? then None
    else Some(rest.value.(segments := segments + rest.value.segments, parents := parents + rest.value.parents))
  }

  lemma TraceDescends(
    c: Codec, h: History, reference: SnapshotRef, current: StateSnapshot, prefetched: Option<Option<Blob>>)
    requires current.WellFormed() && current.sqlite.parent.Some?
    requires ProbeOf(h, reference.name, prefetched).Absent? && ParentOf(c, h, current).Some?
    ensures Trace(c, h, reference, current, prefetched)
         == Extended([current.sqlite.files], 1,
                     Trace(c, h, current.sqlite.parent.value, ParentOf(c, h, current).value, None))
  {
    hide ParentOf, DecodeCheckpoint, ProbeOf;
  }

  lemma Reassociates<T>(a: seq<T>, x: T, b: seq<T>)
    ensures (a + [x]) + b == a + ([x] + b)
  {
  }

  /** Going on to the parent takes one segment off the walk that is left. */
  lemma ExtendedThrough(c: Codec, h: History, reference: SnapshotRef, current: StateSnapshot,
                        prefetched: Option<Option<Blob>>, segments: seq<seq<LtxFile>>, parents: nat)
    requires current.WellFormed() && current.sqlite.parent.Some?
    requires ProbeOf(h, reference.name, prefetched).Absent? && ParentOf(c, h, current).Some?
    ensures Extended(segments, parents, Trace(c, h, reference, current, prefetched))
         == Extended(segments + [current.sqlite.files], parents + 1,
                     Trace(c, h, current.sqlite.parent.value, ParentOf(c, h, current).value, None))
  {
    TraceDescends(c, h, reference, current, prefetched);
    hide ParentOf, Trace;
    var older := Trace(c, h, current.sqlite.parent.value, ParentOf(c, h, current).value, None);
    if older.Some? { Reassociates(segments, current.sqlite.files, older.value.segments); }
  }

  method Walk(c: Codec, h: History, reference0: SnapshotRef, current0: StateSnapshot,
              prefetched0: Option<Option<Blob>>) returns (r: Result<Trail>)
    requires current0.WellFormed()
    ensures r.Ok? <==> Trace(c, h, reference0, current0, prefetched0).Some?
    ensures r.Ok? ==> Trace(c, h, reference0, current0, prefetched0) == Some(r.value)
  {
    var reference, current, prefetched := reference0, current0, prefetched0;
    var segments: seq<seq<LtxFile>> := [];
    var parents := 0;
    ghost var whole := Trace(c, h, reference0, current0, prefetched0);
    assert whole.Some? ==> [] + whole.value.segments == whole.value.segments;
    hide ParentOf, DecodeCheckpoint, ProbeOf;
    while true
      invariant current.WellFormed()
      invariant whole == Extended(segments, parents, Trace(c, h, reference, current, prefetched))
      decreases current.stateVersion
    {
      if current.sqlite.parent.Some? {
        var probe := ProbeOf(h, reference.name, prefetched);
        if probe.Absent? && ParentOf(c, h, current).Some? {
          ExtendedThrough(c, h, reference, current, prefetched, segments, parents);
        }
        prefetched := None;
        if probe.Unavailable? { return Err("checkpoint unavailable"); }
        if probe.Found? {
          var sqlite := ReadCheckpoint(c, probe.bytes, reference, current.sqlite.txid);
          if sqlite.Err? { return Err(sqlite.error); }
          return Ok(Trail(segments + [sqlite.value.files], reference, true, parents));
        }
      }
      segments := segments + [current.sqlite.files];
      if current.sqlite.parent.None? {
        return Ok(Trail(segments, reference, false, parents));
      }
      var parent := ReadParent(c, h, current);
      if parent.Err? { return Err(parent.error); }
      reference, current, parents := current.sqlite.parent.value, parent.value, parents + 1;
    }
  }

  method Resolve(c: Codec, h: History, name: string, bytes: Blob, prefetched: Option<Prefetched>)
    returns (r: Result<Resolved>)
    ensures r.Ok? <==> Resolution(c, h, name, bytes, prefetched).Some?
    ensures r.Ok? ==> Resolution(c, h, name, bytes, prefetched) == Some(r.value)
  {
    var decoded := DecodeSnapshot(c, bytes);
    if decoded.Err? { return Err(decoded.error); }
    var s := decoded.value;
    if !SameActor(c, s, name) { return Err("SQLite dependency belongs to another actor"); }
    var reference := RefOf(c, name, s, bytes);
    var trail := Walk(c, h, reference, s, Applicable(prefetched, reference));
    if trail.Err? { return Err(trail.error); }
    return Ok(Finish(s.sqlite.txid, trail.value));
  }

  // ----- what a resolution is -----

  lemma {:induction false} TraceCovers(
    c: Codec, h: History, reference: SnapshotRef, current: StateSnapshot, prefetched: Option<Option<Blob>>)
    requires current.WellFormed()
    ensures var t := Trace(c, h, reference, current, prefetched);
      t.Some? ==> Covers(Flatten(t.value.segments), 1, current.sqlite.txid)
    decreases current.stateVersion
  {
    var t := Trace(c, h, reference, current, prefetched);
    if t.Some? {
      var segments := t.value.segments;
      if |segments| == 1 || current.sqlite.parent.None? {
        assert Flatten(segments) == [] + segments[0] == segments[0];
      }
      if current.sqlite.parent.Some? && ProbeOf(h, reference.name, prefetched).Absent? {
        var parent := ParentOf(c, h, current).value;
        TraceCovers(c, h, current.sqlite.parent.value, parent, None);
        assert segments[1..] == Trace(c, h, current.sqlite.parent.value, parent, None).value.segments;
        ChainConcat(Flatten(segments[1..]), current.sqlite.files, 1, parent.sqlite.txid, current.sqlite.txid);
      }
    }
  }

  /** Whatever the history holds, a resolution stands alone: it has no parent, is gap-free from
      transaction 1 to the requested one, would itself pass validation at any version, and its
      base and log bytes add up to the whole. */
  lemma ResolutionStandsAlone(
    c: Codec, h: History, name: string, bytes: Blob, prefetched: Option<Prefetched>, stateVersion: u64)
    ensures var r := Resolution(c, h, name, bytes, prefetched);
      r.Some? ==>
        && Decode(c, bytes).Some?
        && r.value.sqlite.txid == Decode(c, bytes).value.sqlite.txid
        && r.value.sqlite.parent == None
        && Covers(r.value.sqlite.files, 1, r.value.sqlite.txid)
        && r.value.sqlite.WellFormed(stateVersion)
        && r.value.baseBytes + r.value.logBytes == Bytes(r.value.sqlite.files)
  {
    var r := Resolution(c, h, name, bytes, prefetched);
    if r.Some? {
      var s := Decode(c, bytes).value;
      var reference := RefOf(c, name, s, bytes);
      TraceCovers(c, h, reference, s, Applicable(prefetched, reference));
    }
  }

  // ----- checkpoints are transparent -----

  function Database(files: seq<LtxFile>): Pages {
    Replay(map[], files)
  }

  /** A checkpoint that is accepted for `current` holds the database that the walk without
      checkpoints restores for it. */
  ghost predicate Compacts(c: Codec, h: History, reference: SnapshotRef, current: StateSnapshot, bytes: Blob)
    requires current.WellFormed()
  {
    var accepted := DecodeCheckpoint(c, bytes, reference, current.sqlite.txid);
    var plain := Trace(c, h.Plain(), reference, current, None);
    accepted.Some? && plain.Some? ==>
      Database(accepted.value.files) == Database(Flatten(plain.value.segments))
  }

  ghost predicate Faithful(c: Codec, h: History) {
    forall o | o in h.objects && o in h.checkpoints ::
      var s := Decode(c, h.objects[o]);
      s.Some? ==> Compacts(c, h, RefOf(c, o, s.value, h.objects[o]), s.value, h.checkpoints[o])
  }

  /** Every checkpoint can be probed and is accepted for the object it lies beside. */
  ghost predicate Sound(c: Codec, h: History) {
    && h.unreachable == {}
    && forall o | o in h.objects && o in h.checkpoints ::
         var s := Decode(c, h.objects[o]);
         s.Some? ==>
           DecodeCheckpoint(c, h.checkpoints[o], RefOf(c, o, s.value, h.objects[o]), s.value.sqlite.txid).Some?
  }

  /** The walk's probe at its starting point, if it meets a checkpoint there, meets a faithful one. */
  ghost predicate StartsFaithful(
    c: Codec, h: History, reference: SnapshotRef, current: StateSnapshot, prefetched: Option<Option<Blob>>)
    requires current.WellFormed()
  {
    var probe := ProbeOf(h, reference.name, prefetched);
    probe.Found? ==> Compacts(c, h, reference, current, probe.bytes)
  }

  ghost predicate StartsSound(
    c: Codec, h: History, reference: SnapshotRef, current: StateSnapshot, prefetched: Option<Option<Blob>>)
  {
    var probe := ProbeOf(h, reference.name, prefetched);
    probe.Found? ==> DecodeCheckpoint(c, probe.bytes, reference, current.sqlite.txid).Some?
  }

  lemma {:induction false} TraceTransparent(
    c: Codec, h: History, reference: SnapshotRef, current: StateSnapshot, prefetched: Option<Option<Blob>>)
    requires current.WellFormed()
    requires Trace(c, h.Plain(), reference, current, None).Some?
    requires Faithful(c, h) && StartsFaithful(c, h, reference, current, prefetched)
    ensures var t := Trace(c, h, reference, current, prefetched);
      var plain := Trace(c, h.Plain(), reference, current, None).value;
      t.Some? ==> Database(Flatten(t.value.segments)) == Database(Flatten(plain.segments))
    ensures Sound(c, h) && StartsSound(c, h, reference, current, prefetched) ==>
      Trace(c, h, reference, current, prefetched).Some?
    decreases current.stateVersion
  {
    if current.sqlite.parent.Some? {
      var probe := ProbeOf(h, reference.name, prefetched);
      if probe.Found? {
        if DecodeCheckpoint(c, probe.bytes, reference, current.sqlite.txid).Some? {
          FlattenOne(DecodeCheckpoint(c, probe.bytes, reference, current.sqlite.txid).value.files);
        }
      } else if probe.Absent? {
        PlainParent(c, h, current);
        hide ParentOf, Replay, Flatten, DecodeCheckpoint;
        var up, parent := current.sqlite.parent.value, ParentOf(c, h, current).value;
        TraceTransparent(c, h, up, parent, None);
        TraceThroughParent(c, h.Plain(), reference, current, parent, None);
        if Trace(c, h, up, parent, None).Some? { TraceThroughParent(c, h, reference, current, parent, prefetched); }
      }
    }
  }

  lemma FlattenOne(files: seq<LtxFile>)
    ensures Flatten([files]) == files
  {
    assert [files][1..] == [];
    assert Flatten([files][1..]) + files == files;
  }

  /** Checkpoints play no part in finding a parent. */
  lemma PlainParent(c: Codec, h: History, current: StateSnapshot)
    requires current.WellFormed() && current.sqlite.parent.Some?
    ensures ParentOf(c, h.Plain(), current) == ParentOf(c, h, current)
  {
  }

  /** A walk that goes on to the parent replays the commit on what the parent's walk restores. */
  lemma TraceThroughParent(
    c: Codec, h: History, reference: SnapshotRef, s: StateSnapshot, parent: StateSnapshot, prefetched: Option<Option<Blob>>)
    requires s.WellFormed() && s.sqlite.parent.Some? && ParentOf(c, h, s) == Some(parent)
    requires ProbeOf(h, reference.name, prefetched).Absent?
    requires Trace(c, h, s.sqlite.parent.value, parent, None).Some?
    ensures var older := Trace(c, h, s.sqlite.parent.value, parent, None).value.segments;
      var t := Trace(c, h, reference, s, prefetched);
      && t.Some?
      && Database(Flatten(t.value.segments)) == Replay(Database(Flatten(older)), s.sqlite.files)
  {
    hide ParentOf, Replay;
    var older := Trace(c, h, s.sqlite.parent.value, parent, None).value.segments;
    var segments := Trace(c, h, reference, s, prefetched).value.segments;
    assert segments == [s.sqlite.files] + older;
    assert segments[1..] == older;
    ReplayConcat(map[], Flatten(older), s.sqlite.files);
  }

  /** Restoring is transparent to checkpoints: where the walk without any succeeds, every
      resolution (with stored checkpoints, and with a prefetched one or a prefetched miss)
      restores the same database, and it does succeed if the checkpoints it meets are sound. */
  lemma ResolutionTransparent(
    c: Codec, h: History, name: string, bytes: Blob, prefetched: Option<Prefetched>)
    requires Resolution(c, h.Plain(), name, bytes, None).Some?
    requires Faithful(c, h)
    requires var s := Decode(c, bytes).value; var reference := RefOf(c, name, s, bytes);
      StartsFaithful(c, h, reference, s, Applicable(prefetched, reference))
    ensures var r := Resolution(c, h, name, bytes, prefetched);
      var plain := Resolution(c, h.Plain(), name, bytes, None).value;
      r.Some? ==>
        && r.value.sqlite.txid == plain.sqlite.txid
        && Database(r.value.sqlite.files) == Database(plain.sqlite.files)
    ensures var s := Decode(c, bytes).value; var reference := RefOf(c, name, s, bytes);
      Sound(c, h) && StartsSound(c, h, reference, s, Applicable(prefetched, reference)) ==>
        Resolution(c, h, name, bytes, prefetched).Some?
  {
    var s := Decode(c, bytes).value;
    var reference := RefOf(c, name, s, bytes);
    TraceTransparent(c, h, reference, s, Applicable(prefetched, reference));
  }
}
