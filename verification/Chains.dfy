/** What a resolution is, told over the stored objects alone: the commits that the parent links lead
    along, and the parentless commit or accepted checkpoint at which they end. */
module Chains {
  import opened Wrappers
  import opened Ltx
  import opened StateLog
  import opened Recovery

  datatype Commit = Commit(reference: SnapshotRef, snapshot: StateSnapshot)

  /** The bytes are a well-formed snapshot, stored under its own reference, and name a parent of the
      same actor, if any. */
  ghost predicate Holds(c: Codec, name: string, bytes: Blob, commit: Commit) {
    var s := commit.snapshot;
    && c.snapshot(bytes) == Some(s) && s.WellFormed()
    && commit.reference == SnapshotRef(name, s.stateVersion, s.requestId, c.digest(bytes))
    && (s.sqlite.parent.Some? ==>
          c.actorOf(name).Some? && c.actorOf(s.sqlite.parent.value.name) == c.actorOf(name))
  }

  /** The parent is stored as its child refers to it, and ends one transaction before the child begins. */
  ghost predicate Links(c: Codec, h: History, child: Commit, parent: Commit) {
    var name := parent.reference.name;
    && child.snapshot.sqlite.parent == Some(parent.reference)
    && name in h.objects && Holds(c, name, h.objects[name], parent)
    && child.snapshot.sqlite.files != []
    && child.snapshot.sqlite.files[0].first == parent.snapshot.sqlite.txid + 1
  }

  /** There is no checkpoint for the commit, as far as one can know: what was fetched beforehand says so
      or, with nothing fetched, the store does. */
  predicate Uncompacted(h: History, commit: Commit, fetched: Option<Option<Blob>>) {
    if fetched.Some? then fetched.value.None?
    else commit.reference.name !in h.unreachable && commit.reference.name !in h.checkpoints
  }

  /** The checkpoint for the commit, fetched beforehand or stored, holds the files `base`. */
  ghost predicate Compacted(
    c: Codec, h: History, commit: Commit, fetched: Option<Option<Blob>>, base: seq<LtxFile>)
  {
    var name, txid := commit.reference.name, commit.snapshot.sqlite.txid;
    exists bytes ::
      && (fetched == Some(Some(bytes))
          || (fetched.None? && name !in h.unreachable && name in h.checkpoints && h.checkpoints[name] == bytes))
      && c.checkpoint(bytes) == Some(Checkpoint(commit.reference, SqliteSnapshot(txid, None, base)))
      && SqliteSnapshot(txid, None, base).WellFormed(commit.reference.stateVersion)
  }

  /** The walk ends with the last commit of the chain, and not before: at its checkpoint, or because it
      has no parent. `base` is what the rest is replayed on. */
  ghost predicate Walks(
    c: Codec, h: History, chain: seq<Commit>, fetched: Option<Option<Blob>>, base: seq<LtxFile>, checkpoint: bool)
  {
    && chain != []
    && if |chain| > 1 then
         && Links(c, h, chain[0], chain[1]) && Uncompacted(h, chain[0], fetched)
         && Walks(c, h, chain[1..], None, base, checkpoint)
       else if checkpoint then
         chain[0].snapshot.sqlite.parent.Some? && Compacted(c, h, chain[0], fetched, base)
       else
         chain[0].snapshot.sqlite.parent.None? && base == chain[0].snapshot.sqlite.files
  }

  /** The files of the chain in the order they were written, but for those of its last commit. */
  function Log(chain: seq<Commit>): seq<LtxFile> {
    if |chain| <= 1 then [] else Log(chain[1..]) + chain[0].snapshot.sqlite.files
  }

  ghost predicate Leads(
    c: Codec, h: History, name: string, bytes: Blob, prefetched: Option<Prefetched>,
    chain: seq<Commit>, base: seq<LtxFile>, checkpoint: bool)
  {
    && chain != [] && Holds(c, name, bytes, chain[0])
    && Walks(c, h, chain,
             if prefetched.Some? && prefetched.value.source == chain[0].reference then Some(prefetched.value.bytes)
             else None,
             base, checkpoint)
  }

  /** What a resolution along the chain reports. */
  ghost predicate Reports(r: Resolved, chain: seq<Commit>, base: seq<LtxFile>, checkpoint: bool)
    requires chain != []
  {
    && r.sqlite == SqliteSnapshot(chain[0].snapshot.sqlite.txid, None, base + Log(chain))
    && r.baseBytes == Bytes(base) && r.logBytes == Bytes(Log(chain))
    && r.checkpointVersion == chain[|chain| - 1].snapshot.stateVersion
    && r.checkpoint == checkpoint && r.parents == |chain| - 1
  }

  /** The trail found along a chain. */
  ghost predicate Records(t: Trail, chain: seq<Commit>, base: seq<LtxFile>, checkpoint: bool)
    requires chain != []
  {
    && t.segments != [] && t.segments[|t.segments| - 1] == base
    && Flatten(t.segments) == base + Log(chain)
    && t.last == chain[|chain| - 1].reference && t.checkpoint == checkpoint && t.parents == |chain| - 1
  }

  // ----- one step -----

  lemma ParentLinks(c: Codec, h: History, child: Commit, parent: Commit)
    requires child.snapshot.WellFormed() && child.snapshot.sqlite.parent == Some(parent.reference)
    ensures ParentOf(c, h, child.snapshot) == Some(parent.snapshot) <==> Links(c, h, child, parent)
  {
  }

  lemma UncompactedIsAbsent(h: History, commit: Commit, fetched: Option<Option<Blob>>)
    ensures Uncompacted(h, commit, fetched) <==> ProbeOf(h, commit.reference.name, fetched).Absent?
  {
  }

  /** The checkpoint that the walk finds and accepts. */
  ghost predicate Accepted(
    c: Codec, h: History, commit: Commit, fetched: Option<Option<Blob>>, base: seq<LtxFile>)
  {
    var probe := ProbeOf(h, commit.reference.name, fetched);
    && probe.Found?
    && DecodeCheckpoint(c, probe.bytes, commit.reference, commit.snapshot.sqlite.txid)
       == Some(SqliteSnapshot(commit.snapshot.sqlite.txid, None, base))
  }

  lemma CompactedIsAccepted(
    c: Codec, h: History, commit: Commit, fetched: Option<Option<Blob>>, base: seq<LtxFile>)
    ensures Compacted(c, h, commit, fetched, base) <==> Accepted(c, h, commit, fetched, base)
  {
    if Accepted(c, h, commit, fetched, base) {
      var bytes := ProbeOf(h, commit.reference.name, fetched).bytes;
      var sqlite := SqliteSnapshot(commit.snapshot.sqlite.txid, None, base);
      assert c.checkpoint(bytes) == Some(Checkpoint(commit.reference, sqlite));
      assert sqlite.WellFormed(commit.reference.stateVersion);
    }
  }

  lemma RecordsLonger(t: Trail, older: Trail, chain: seq<Commit>, base: seq<LtxFile>, checkpoint: bool)
    requires |chain| > 1 && Records(older, chain[1..], base, checkpoint)
    requires t == older.(segments := [chain[0].snapshot.sqlite.files] + older.segments, parents := older.parents + 1)
    ensures Records(t, chain, base, checkpoint)
  {
    assert t.segments[1..] == older.segments;
    assert (base + Log(chain[1..])) + chain[0].snapshot.sqlite.files == base + Log(chain);
  }

  lemma RecordsOne(t: Trail, commit: Commit, base: seq<LtxFile>, checkpoint: bool)
    requires t == Trail([base], commit.reference, checkpoint, 0)
    ensures Records(t, [commit], base, checkpoint)
  {
    FlattenOne(base);
    assert base + [] == base;
  }

  // ----- whole walks -----

  lemma {:induction false} WalkIsTraced(
    c: Codec, h: History, chain: seq<Commit>, fetched: Option<Option<Blob>>, base: seq<LtxFile>, checkpoint: bool)
    requires Walks(c, h, chain, fetched, base, checkpoint) && chain[0].snapshot.WellFormed()
    ensures var t := Trace(c, h, chain[0].reference, chain[0].snapshot, fetched);
      t.Some? && Records(t.value, chain, base, checkpoint)
    decreases |chain|
  {
    hide Records, ParentOf, DecodeCheckpoint, ProbeOf, Compacted, Uncompacted, Links;
    var t := Trace(c, h, chain[0].reference, chain[0].snapshot, fetched);
    if |chain| > 1 {
      LinkedIsWellFormed(c, h, chain[0], chain[1]);
      ParentLinks(c, h, chain[0], chain[1]);
      UncompactedIsAbsent(h, chain[0], fetched);
      WalkIsTraced(c, h, chain[1..], None, base, checkpoint);
      var older := Trace(c, h, chain[1].reference, chain[1].snapshot, None);
      RecordsLonger(t.value, older.value, chain, base, checkpoint);
    } else {
      assert chain == [chain[0]];
      if checkpoint { CompactedIsAccepted(c, h, chain[0], fetched, base); }
      RecordsOne(t.value, chain[0], base, checkpoint);
    }
  }

  lemma LinkedIsWellFormed(c: Codec, h: History, child: Commit, parent: Commit)
    requires Links(c, h, child, parent)
    ensures child.snapshot.sqlite.parent == Some(parent.reference) && parent.snapshot.WellFormed()
  {
  }

  lemma {:induction false} TraceIsWalk(c: Codec, h: History, commit: Commit, fetched: Option<Option<Blob>>)
    returns (chain: seq<Commit>, base: seq<LtxFile>)
    requires commit.snapshot.WellFormed() && Trace(c, h, commit.reference, commit.snapshot, fetched).Some?
    ensures var t := Trace(c, h, commit.reference, commit.snapshot, fetched).value;
      && chain != [] && chain[0] == commit
      && Walks(c, h, chain, fetched, base, t.checkpoint) && Records(t, chain, base, t.checkpoint)
    decreases commit.snapshot.stateVersion
  {
    hide Records, ParentOf, DecodeCheckpoint, ProbeOf, Compacted, Uncompacted, Links;
    var s := commit.snapshot;
    var t := Trace(c, h, commit.reference, s, fetched).value;
    UncompactedIsAbsent(h, commit, fetched);
    if s.sqlite.parent.Some? && Uncompacted(h, commit, fetched) {
      var parent := Commit(s.sqlite.parent.value, ParentOf(c, h, s).value);
      ParentLinks(c, h, commit, parent);
      var older;
      older, base := TraceIsWalk(c, h, parent, None);
      chain := [commit] + older;
      assert chain[1..] == older;
      RecordsLonger(t, Trace(c, h, parent.reference, parent.snapshot, None).value, chain, base, t.checkpoint);
    } else {
      chain, base := [commit], t.segments[0];
      if s.sqlite.parent.Some? { AcceptedBase(c, h, commit, fetched, base); }
      RecordsOne(t, commit, base, t.checkpoint);
    }
  }

  lemma AcceptedBase(c: Codec, h: History, commit: Commit, fetched: Option<Option<Blob>>, base: seq<LtxFile>)
    requires var probe := ProbeOf(h, commit.reference.name, fetched);
      && probe.Found?
      && DecodeCheckpoint(c, probe.bytes, commit.reference, commit.snapshot.sqlite.txid).Some?
      && base == DecodeCheckpoint(c, probe.bytes, commit.reference, commit.snapshot.sqlite.txid).value.files
    ensures Compacted(c, h, commit, fetched, base)
  {
    CompactedIsAccepted(c, h, commit, fetched, base);
  }

  // ----- what a resolution is -----

  lemma FinishReports(t: Trail, chain: seq<Commit>, base: seq<LtxFile>, checkpoint: bool)
    requires chain != [] && Records(t, chain, base, checkpoint)
    requires chain[|chain| - 1].reference.stateVersion == chain[|chain| - 1].snapshot.stateVersion
    ensures Reports(Finish(chain[0].snapshot.sqlite.txid, t), chain, base, checkpoint)
  {
    ReplayConcat(map[], base, Log(chain));
  }

  lemma {:induction false} LastIsOwn(
    c: Codec, h: History, chain: seq<Commit>, fetched: Option<Option<Blob>>, base: seq<LtxFile>, checkpoint: bool)
    requires Walks(c, h, chain, fetched, base, checkpoint)
    requires chain[0].reference.stateVersion == chain[0].snapshot.stateVersion
    ensures chain[|chain| - 1].reference.stateVersion == chain[|chain| - 1].snapshot.stateVersion
    decreases |chain|
  {
    if |chain| > 1 {
      LastIsOwn(c, h, chain[1..], None, base, checkpoint);
    }
  }

  /** A snapshot resolves exactly when its parent links lead, over stored and unaltered commits without
      a checkpoint, to one that has an acceptable checkpoint or no parent; and then to the files found
      there with those of the other commits replayed on them, their bytes counted apart, the version of
      the last commit, and the number of links. */
  lemma ResolutionExactly(
    c: Codec, h: History, name: string, bytes: Blob, prefetched: Option<Prefetched>, r: Resolved)
    ensures Resolution(c, h, name, bytes, prefetched) == Some(r) <==>
      exists chain, base, checkpoint ::
        Leads(c, h, name, bytes, prefetched, chain, base, checkpoint) && Reports(r, chain, base, checkpoint)
  {
    hide Trace, Walks, Reports, Records;
    if chain, base, checkpoint :|
      Leads(c, h, name, bytes, prefetched, chain, base, checkpoint) && Reports(r, chain, base, checkpoint)
    {
      ChainResolves(c, h, name, bytes, prefetched, chain, base, checkpoint, r);
    }
    if Resolution(c, h, name, bytes, prefetched) == Some(r) {
      var chain, base := ResolutionChain(c, h, name, bytes, prefetched);
    }
  }

  lemma ChainResolves(
    c: Codec, h: History, name: string, bytes: Blob, prefetched: Option<Prefetched>,
    chain: seq<Commit>, base: seq<LtxFile>, checkpoint: bool, r: Resolved)
    requires Leads(c, h, name, bytes, prefetched, chain, base, checkpoint) && Reports(r, chain, base, checkpoint)
    ensures Resolution(c, h, name, bytes, prefetched) == Some(r)
  {
    hide Trace, Walks, Records;
    var fetched := Applicable(prefetched, chain[0].reference);
    WalkIsTraced(c, h, chain, fetched, base, checkpoint);
    LastIsOwn(c, h, chain, fetched, base, checkpoint);
    FinishReports(Trace(c, h, chain[0].reference, chain[0].snapshot, fetched).value, chain, base, checkpoint);
  }

  lemma ResolutionChain(c: Codec, h: History, name: string, bytes: Blob, prefetched: Option<Prefetched>)
    returns (chain: seq<Commit>, base: seq<LtxFile>)
    requires Resolution(c, h, name, bytes, prefetched).Some?
    ensures var r := Resolution(c, h, name, bytes, prefetched).value;
      && Leads(c, h, name, bytes, prefetched, chain, base, r.checkpoint)
      && Reports(r, chain, base, r.checkpoint)
  {
    hide Trace, Walks, Records;
    var s := Decode(c, bytes).value;
    var commit := Commit(RefOf(c, name, s, bytes), s);
    var fetched := Applicable(prefetched, commit.reference);
    chain, base := TraceIsWalk(c, h, commit, fetched);
    var t := Trace(c, h, commit.reference, s, fetched).value;
    LastIsOwn(c, h, chain, fetched, base, t.checkpoint);
    FinishReports(t, chain, base, t.checkpoint);
  }
}
