/** A run in which a session captures again before its last commit is settled, and so stores a commit
    whose parent ends too early. */
module SkippedCommits {
  import opened Wrappers
  import opened Sorting
  import opened Ltx
  import opened StateLog
  import opened Capture
  import opened Recovery
  import opened SnapshotRuns

  function PageOf(n: nat): Page {
    seq(n, _ => 0)
  }

  function PagesAt(n: nat): Pages {
    if n == 0 then map[] else map[1 := PageOf(n)]
  }

  /** A directory with the delta of transaction `n` alone. */
  function OneDelta(n: u64): Replica {
    Replica([Entry(n, n, LtxData(true, 1, PagesAt(n)))], [])
  }

  function DeltaFile(n: u64): LtxFile {
    LtxFile(0, n, n, LtxData(true, 1, PagesAt(n)))
  }

  lemma OneDeltaListed(e: Entry, n: u64)
    requires 0 < n && e.last == n
    ensures Listing([e], 0, n - 1, n) == [Load(0, e)] && Listing([], 9, n - 1, n) == []
  {
    assert Fresh([e], n - 1, n) == [e] by { assert [e][1..] == []; }
    assert Sort([e], ByRange) == [e] by { assert [e][..0] == []; }
    hide Fresh, Sort;
    assert Sort(Fresh([], n - 1, n), ByRange) == [];
  }

  lemma OneDeltaContinues(f: LtxFile)
    requires f.first == f.last < U64_MAX
    ensures Continue([f], f.first) == Ok(([f], f.first + 1))
  {
    assert [f][1..] == [];
    assert [f] + [] == [f];
  }

  lemma OneDeltaCollects(n: u64)
    requires 0 < n < U64_MAX
    ensures Collected(OneDelta(n), n - 1, n) == Ok([DeltaFile(n)])
  {
    OneDeltaListed(Entry(n, n, LtxData(true, 1, PagesAt(n))), n);
    OneDeltaContinues(DeltaFile(n));
    hide Listing, Continue, PagesAt;
    assert [] + [DeltaFile(n)] == [DeltaFile(n)];
  }

  function FirstCommit(): Write {
    Write("a", StateSnapshot(1, 1, "r", SqliteSnapshot(1, None, [DeltaFile(1)])), PagesAt(1))
  }

  function NextCommit(k: Coder, n: u64): Write {
    var first := FirstCommit().snapshot;
    var head := RefOf(k.c, "a", first, k.encodeSnapshot(first));
    Write("b", StateSnapshot(2, 1, "r", SqliteSnapshot(n, Some(head), [DeltaFile(n)])), PagesAt(n))
  }

  /** The second commit is handed over and never arrives; before it is settled, the third transaction
      is captured in its place. */
  function SkippingRun(k: Coder): seq<Event> {
    [Open(0, 1), Capture(0, OneDelta(1), 1, PagesAt, "a", "r"), Land(FirstCommit()), Acknowledge(0),
     Capture(0, OneDelta(2), 2, PagesAt, "b", "r"), Capture(0, OneDelta(3), 3, PagesAt, "b", "r"),
     Land(NextCommit(k, 3))]
  }

  ghost function SkippingState(k: Coder, n: nat): World {
    var a := FirstCommit();
    var bytes := k.encodeSnapshot(a.snapshot);
    var stored := History(map["a" := bytes], map[], {});
    var head := Some(RefOf(k.c, "a", a.snapshot, bytes));
    var b, c := NextCommit(k, 2), NextCommit(k, 3);
    if n == 0 then Initial
    else if n == 1 then Initial.(sessions := map[0 := Session(1, 0, None, 0, map[], None)])
    else if n == 2 then Initial.(writes := {a}, sessions := map[0 := Session(1, 0, None, 1, PagesAt(1), Some(a))])
    else if n == 3 then World(stored, map["a" := a.db], {a}, map[0 := Session(1, 0, None, 1, PagesAt(1), Some(a))])
    else if n == 4 then World(stored, map["a" := a.db], {a}, map[0 := Session(1, 1, head, 1, PagesAt(1), None)])
    else if n == 5 then World(stored, map["a" := a.db], {a, b}, map[0 := Session(1, 1, head, 2, PagesAt(2), Some(b))])
    else if n == 6 then
      World(stored, map["a" := a.db], {a, b, c}, map[0 := Session(1, 1, head, 3, PagesAt(3), Some(c))])
    else
      World(stored.(objects := stored.objects["b" := k.encodeSnapshot(c.snapshot)]),
            map["a" := a.db, "b" := c.db], {a, b, c}, map[0 := Session(1, 1, head, 3, PagesAt(3), Some(c))])
  }

  /** The coder knows the two names as the actor's. */
  ghost predicate Knows(k: Coder, actor: string) {
    Lawful(k) && k.c.actorOf("a") == Some(actor) && k.c.actorOf("b") == Some(actor)
  }

  lemma CommitsAreWellFormed(k: Coder, n: u64)
    requires 2 <= n < U64_MAX
    ensures FirstCommit().snapshot.WellFormed() && NextCommit(k, n).snapshot.WellFormed()
  {
    assert Utf8Length("r") == 1 by { assert "r"[..0] == ""; }
    assert Covers([DeltaFile(1)], 1, 1) && Covers([DeltaFile(n)], n, n);
  }

  lemma FirstCapture(k: Coder, actor: string)
    requires Knows(k, actor)
    ensures var session := Session(1, 0, None, 0, map[], None);
      && Moves(session, SkippingRun(k)[1])
      && Handed(k, session, SkippingRun(k)[1]) == Some(FirstCommit())
  {
    OneDeltaCollects(1);
    CommitsAreWellFormed(k, 2);
    hide Collected, PagesAt;
  }

  lemma NextCapture(k: Coder, actor: string, session: Session, n: u64)
    requires Knows(k, actor) && 2 <= n <= 3
    requires session == Session(1, 1, NextCommit(k, 2).snapshot.sqlite.parent, n - 1, session.db, session.pending)
    ensures var e := Capture(0, OneDelta(n), n, PagesAt, "b", "r");
      Moves(session, e) && Handed(k, session, e) == Some(NextCommit(k, n))
  {
    hide Collected, PagesAt, Lawful;
    OneDeltaCollects(n);
    CommitsAreWellFormed(k, n);
  }

  lemma SkippingCaptures(k: Coder, actor: string, n: nat)
    requires Knows(k, actor) && (n == 1 || n == 4 || n == 5)
    ensures Step(k, SkippingState(k, n), SkippingRun(k)[n]) == SkippingState(k, n + 1)
  {
    hide Moves, Handed, Lawful, PagesAt, Knows;
    if n == 1 {
      FirstCapture(k, actor);
    } else {
      NextCapture(k, actor, SkippingState(k, n).sessions[0], n - 2);
    }
  }

  lemma SkippingStep(k: Coder, actor: string, n: nat)
    requires Knows(k, actor) && n < 7
    ensures Step(k, SkippingState(k, n), SkippingRun(k)[n]) == SkippingState(k, n + 1)
  {
    hide Capturing, Lawful, PagesAt, Knows;
    if n == 1 || n == 4 || n == 5 { SkippingCaptures(k, actor, n); }
  }

  lemma SkippingIsHonest(k: Coder, actor: string, n: nat)
    requires Knows(k, actor) && n < 7
    ensures Honest(k, actor, SkippingState(k, n), SkippingRun(k)[n])
  {
    assert PagesAt(0) + PagesAt(1) == PagesAt(1) && PagesAt(1) + PagesAt(2) == PagesAt(2);
    assert PagesAt(2) + PagesAt(3) == PagesAt(3);
  }

  lemma {:induction false} SkippingRunReaches(k: Coder, actor: string, n: nat)
    requires Knows(k, actor) && n <= 7
    ensures Run(k, SkippingRun(k)[..n]) == SkippingState(k, n)
    decreases n
  {
    hide Step, Knows;
    if n > 0 {
      SkippingRunReaches(k, actor, n - 1);
      SkippingStep(k, actor, n - 1);
      assert SkippingRun(k)[..n][..n - 1] == SkippingRun(k)[..n - 1];
    }
  }

  /** The third transaction is captured while the session is past its head. */
  lemma SkippingSkips(k: Coder, actor: string)
    requires Knows(k, actor)
    ensures Skips(k, SkippingState(k, 5), SkippingRun(k)[5])
  {
    hide Handed, Moves, PagesAt;
    var first := FirstCommit().snapshot;
    assert k.c.snapshot(k.encodeSnapshot(first)) == Some(first);
    NextCapture(k, actor, SkippingState(k, 5).sessions[0], 3);
    assert SkippingState(k, 5).sessions[0].head.value.name == "a";
  }

  lemma SkippedCannotResolve(k: Coder, actor: string)
    requires Knows(k, actor)
    ensures var w := SkippingState(k, 7);
      Resolution(k.c, w.h, "b", w.h.objects["b"], None).None?
  {
    hide PagesAt;
    var w := SkippingState(k, 7);
    var first, third := FirstCommit().snapshot, NextCommit(k, 3).snapshot;
    CommitsAreWellFormed(k, 3);
    assert k.c.snapshot(k.encodeSnapshot(first)) == Some(first);
    assert k.c.snapshot(k.encodeSnapshot(third)) == Some(third);
    assert Decode(k.c, w.h.objects["a"]) == Some(first) && Decode(k.c, w.h.objects["b"]) == Some(third);
    assert ParentOf(k.c, w.h, third).None?;
  }

  lemma SkippingRunIsHonest(k: Coder, actor: string)
    requires Knows(k, actor)
    ensures HonestRun(k, actor, SkippingRun(k))
  {
    hide Honest, SkippingState, Knows;
    var run := SkippingRun(k);
    forall i | 0 <= i < |run| ensures Honest(k, actor, Run(k, run[..i]), run[i]) {
      SkippingRunReaches(k, actor, i);
      SkippingIsHonest(k, actor, i);
    }
  }

  /** With any coder, this honest run stores a commit that cannot be restored. */
  lemma SkippingLosesState(k: Coder, actor: string)
    requires Knows(k, actor)
    ensures HonestRun(k, actor, SkippingRun(k)) && !GapFree(k, SkippingRun(k))
    ensures var w := Run(k, SkippingRun(k));
      "b" in w.h.objects && Resolution(k.c, w.h, "b", w.h.objects["b"], None).None?
  {
    hide Honest, Skips, Resolution, Step, Knows;
    var run := SkippingRun(k);
    SkippingRunIsHonest(k, actor);
    SkippingRunReaches(k, actor, 5);
    SkippingSkips(k, actor);
    assert Skips(k, Run(k, run[..5]), run[5]);
    SkippingRunReaches(k, actor, 7);
    assert run[..7] == run;
    SkippedCannotResolve(k, actor);
  }
}
