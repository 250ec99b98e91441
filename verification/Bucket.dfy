/** Object storage with compare-and-swap, and immutable objects written through it although a reply
    may be lost, late or wrong about what happened. */
module Bucket {
  import opened Wrappers

  /** Keys and contents are only ever compared. */
  type ObjectKey = nat
  type Content = nat

  const GENERATION_MAX: int := 0x7FFF_FFFF_FFFF_FFFF

  datatype Stored = Stored(generation: int, content: Content)

  type Objects = map<ObjectKey, Stored>

  function GenerationOf(objects: Objects, key: ObjectKey): Option<int> {
    if key in objects then Some(objects[key].generation) else None
  }

  /** Whether a swap is applied; an exhausted generation is an error that writes nothing. */
  predicate Applies(objects: Objects, key: ObjectKey, expected: Option<int>) {
    && GenerationOf(objects, key) == expected
    && (expected.Some? ==> expected.value < GENERATION_MAX)
  }

  function Swapped(objects: Objects, key: ObjectKey, expected: Option<int>, content: Content): Objects {
    if Applies(objects, key, expected)
    then objects[key := Stored((if expected.Some? then expected.value else 0) + 1, content)]
    else objects
  }

  class FileBucket {
    var objects: Objects

    constructor ()
      ensures objects == map[]
    {
      objects := map[];
    }

    method Get(key: ObjectKey) returns (r: Option<Stored>)
      ensures r == if key in objects then Some(objects[key]) else None
    {
      return if key in objects then Some(objects[key]) else None;
    }

    method CompareAndSwap(key: ObjectKey, expected: Option<int>, content: Content) returns (r: Result<bool>)
      modifies this
      ensures objects == Swapped(old(objects), key, expected, content)
      ensures r == Ok(true) <==> Applies(old(objects), key, expected)
      ensures r.Err? <==> GenerationOf(old(objects), key) == expected && !Applies(old(objects), key, expected)
    {
      var generation := if key in objects then Some(objects[key].generation) else None;
      if generation != expected { return Ok(false); }
      var current := if generation.Some? then generation.value else 0;
      if current >= GENERATION_MAX { return Err("bucket generation overflow"); }
      objects := objects[key := Stored(current + 1, content)];
      return Ok(true);
    }

    /** Without interference, a replacement succeeds exactly when the key then holds the content. */
    method Replace(key: ObjectKey, generation: Option<int>, content: Content) returns (r: Result<bool>)
      modifies this
      ensures objects == Swapped(old(objects), key, generation, content)
      ensures r == Ok(true) <==> key in objects && objects[key].content == content
    {
      r := CompareAndSwap(key, generation, content);
      if r == Ok(true) { return; }
      var current := Get(key);
      if current.Some? && current.value.content == content { return Ok(true); }
    }

    method Put(key: ObjectKey, content: Content) returns (ok: bool)
      modifies this
      ensures ok <==> key !in old(objects) || old(objects)[key].content == content
      ensures objects == Swapped(old(objects), key, None, content)
    {
      var r := Replace(key, None, content);
      return r == Ok(true);
    }
  }

  /** The newest object among the listed keys: `versions[i]` is the version the name of key `i` spells,
      if it spells one. Of several newest, the one listed last. */
  method Latest(versions: seq<Option<nat>>) returns (newest: Option<nat>)
    ensures newest.None? <==> forall i | 0 <= i < |versions| :: versions[i].None?
    ensures newest.Some? ==>
              && newest.value < |versions| && versions[newest.value].Some?
              && (forall i | 0 <= i < |versions| && versions[i].Some? ::
                    versions[i].value <= versions[newest.value].value)
              && (forall i | newest.value < i < |versions| && versions[i].Some? ::
                    versions[i].value < versions[newest.value].value)
  {
    newest := None;
    for n := 0 to |versions|
      invariant newest.None? <==> forall i | 0 <= i < n :: versions[i].None?
      invariant newest.Some? ==>
                  && newest.value < n && versions[newest.value].Some?
                  && (forall i | 0 <= i < n && versions[i].Some? :: versions[i].value <= versions[newest.value].value)
                  && (forall i | newest.value < i < n && versions[i].Some? :: versions[i].value < versions[newest.value].value)
    {
      if versions[n].Some? && (newest.None? || versions[n].value >= versions[newest.value].value) {
        newest := Some(n);
      }
    }
  }

  // ----- many writers, and replies that cannot be trusted -----

  datatype Stage = Waiting | Checking | Succeeded | Refused

  /** `applied` is what the bucket did for this operation, which its writer need not be told. */
  datatype Operation = Operation(key: ObjectKey, expected: Option<int>, content: Content, applied: bool, stage: Stage)

  datatype World = World(objects: Objects, operations: map<nat, Operation>)

  const Initial: World := World(map[], map[])

  /** A request may reach the bucket any number of times, at any time, even after its writer gave up.
      The report may claim success only if the bucket applied it; it may claim failure regardless. */
  datatype Event =
    | Request(id: nat, key: ObjectKey, expected: Option<int>, content: Content)
    | Land(id: nat)
    | Report(id: nat, success: bool)
    | Fetch(id: nat, readable: bool)

  ghost predicate Enabled(w: World, e: Event, immutable: set<ObjectKey>) {
    match e
    case Request(id, key, expected, _) => id !in w.operations && (key in immutable ==> expected.None?)
    case Land(id) => id in w.operations
    case Report(id, success) =>
      id in w.operations && w.operations[id].stage.Waiting? && (success ==> w.operations[id].applied)
    case Fetch(id, _) => id in w.operations && w.operations[id].stage.Checking?
  }

  function Next(w: World, e: Event): World {
    match e
    case Request(id, key, expected, content) =>
      w.(operations := w.operations[id := Operation(key, expected, content, false, Waiting)])
    case Land(id) =>
      if id !in w.operations then w
      else
        var o := w.operations[id];
        World(Swapped(w.objects, o.key, o.expected, o.content),
              w.operations[id := o.(applied := o.applied || Applies(w.objects, o.key, o.expected))])
    case Report(id, success) =>
      if id !in w.operations then w
      else w.(operations := w.operations[id := w.operations[id].(stage := if success then Succeeded else Checking)])
    case Fetch(id, readable) =>
      if id !in w.operations then w
      else
        var o := w.operations[id];
        var holds := readable && o.key in w.objects && w.objects[o.key].content == o.content;
        w.(operations := w.operations[id := o.(stage := if holds then Succeeded else Refused)])
  }

  ghost function After(events: seq<Event>, immutable: set<ObjectKey>): World
    decreases |events|
  {
    if events == [] then Initial
    else
      var w, e := After(events[..|events| - 1], immutable), events[|events| - 1];
      if Enabled(w, e, immutable) then Next(w, e) else w
  }

  /** An immutable object's applied and its successful writes are of the content it holds. */
  ghost predicate Settled(w: World, immutable: set<ObjectKey>) {
    forall id | id in w.operations && w.operations[id].key in immutable ::
      var o := w.operations[id];
      && o.expected.None?
      && (o.applied || o.stage.Succeeded? ==> o.key in w.objects && w.objects[o.key].content == o.content)
  }

  /** Immutable objects stay, and so does what each operation set out to write. */
  ghost predicate Keeps(w: World, w': World, immutable: set<ObjectKey>) {
    && (forall key | key in immutable && key in w.objects :: key in w'.objects && w'.objects[key] == w.objects[key])
    && (forall id | id in w.operations ::
          && id in w'.operations
          && w'.operations[id] == w.operations[id].(applied := w'.operations[id].applied, stage := w'.operations[id].stage))
  }

  lemma StepSettles(w: World, e: Event, immutable: set<ObjectKey>)
    requires Settled(w, immutable) && Enabled(w, e, immutable)
    ensures Settled(Next(w, e), immutable) && Keeps(w, Next(w, e), immutable)
  {
  }

  lemma {:induction false} RunSettles(events: seq<Event>, immutable: set<ObjectKey>)
    ensures Settled(After(events, immutable), immutable)
    decreases |events|
  {
    if events != [] {
      var w, e := After(events[..|events| - 1], immutable), events[|events| - 1];
      RunSettles(events[..|events| - 1], immutable);
      if Enabled(w, e, immutable) { StepSettles(w, e, immutable); }
    }
  }

  /** An immutable object never changes once it is there. */
  lemma {:induction false} ImmutableObjectsStay(events: seq<Event>, more: seq<Event>, immutable: set<ObjectKey>)
    ensures Keeps(After(events, immutable), After(events + more, immutable), immutable)
    decreases |more|
  {
    if more == [] {
      assert events + more == events;
    } else {
      var init, e := more[..|more| - 1], more[|more| - 1];
      ImmutableObjectsStay(events, init, immutable);
      assert (events + more)[..|events + more| - 1] == events + init;
      RunSettles(events + init, immutable);
      if Enabled(After(events + init, immutable), e, immutable) { StepSettles(After(events + init, immutable), e, immutable); }
    }
  }

  /** A write to an immutable key that succeeds leaves the key holding its content for the rest of the
      run, so no write of other content to that key ever succeeds. */
  lemma SuccessfulPutsStay(events: seq<Event>, more: seq<Event>, immutable: set<ObjectKey>, id: nat, other: nat)
    requires id in After(events, immutable).operations && After(events, immutable).operations[id].key in immutable
    requires After(events, immutable).operations[id].stage.Succeeded?
    ensures var o, w' := After(events, immutable).operations[id], After(events + more, immutable);
      && o.key in w'.objects && w'.objects[o.key].content == o.content
      && (other in w'.operations && w'.operations[other].key == o.key && w'.operations[other].stage.Succeeded? ==>
            w'.operations[other].content == o.content)
  {
    RunSettles(events, immutable);
    ImmutableObjectsStay(events, more, immutable);
    RunSettles(events + more, immutable);
  }

  /** Recovery writes back what it read of an immutable object. Whatever else happens, that write
      changes nothing whenever it reaches the bucket, and checking on it can only find it done. */
  lemma RecoveryChangesNothing(
    events: seq<Event>, more: seq<Event>, immutable: set<ObjectKey>, id: nat, key: ObjectKey)
    requires key in immutable && key in After(events, immutable).objects && id !in After(events, immutable).operations
    ensures var content := After(events, immutable).objects[key].content;
      var w := After(events + [Request(id, key, None, content)] + more, immutable);
      && id in w.operations
      && Next(w, Land(id)).objects == w.objects
      && Next(w, Fetch(id, true)).operations[id].stage.Succeeded?
  {
    var w := After(events, immutable);
    var e := Request(id, key, None, w.objects[key].content);
    assert (events + [e])[..|events + [e]| - 1] == events;
    assert After(events + [e], immutable) == Next(w, e);
    ImmutableObjectsStay(events + [e], more, immutable);
  }

  // ----- what swaps exclude -----

  /** The i-th event brings a swap of the key to the bucket while its expectation holds. */
  ghost predicate SwapsAt(events: seq<Event>, immutable: set<ObjectKey>, i: int, key: ObjectKey) {
    0 <= i < |events| &&
    var w, e := After(events[..i], immutable), events[i];
    && e.Land? && Enabled(w, e, immutable) && w.operations[e.id].key == key
    && match w.operations[e.id].expected
       case None => key !in w.objects
       case Some(generation) => key in w.objects && w.objects[key].generation == generation < GENERATION_MAX
  }

  ghost function ExpectedAt(events: seq<Event>, immutable: set<ObjectKey>, i: int, key: ObjectKey): int
    requires SwapsAt(events, immutable, i, key)
  {
    var expected := After(events[..i], immutable).operations[events[i].id].expected;
    if expected.Some? then expected.value else 0
  }

  lemma {:induction false} GenerationsFit(events: seq<Event>, immutable: set<ObjectKey>)
    ensures forall key | key in After(events, immutable).objects ::
              1 <= After(events, immutable).objects[key].generation <= GENERATION_MAX
    decreases |events|
  {
    if events != [] { GenerationsFit(events[..|events| - 1], immutable); }
  }

  lemma {:induction false} GenerationsGrow(events: seq<Event>, immutable: set<ObjectKey>, i: int, key: ObjectKey)
    requires SwapsAt(events, immutable, i, key)
    ensures var objects := After(events, immutable).objects;
      key in objects && objects[key].generation > ExpectedAt(events, immutable, i, key)
    decreases |events|
  {
    var init, e := events[..|events| - 1], events[|events| - 1];
    if i < |init| {
      assert init[..i] == events[..i];
      assert SwapsAt(init, immutable, i, key);
      GenerationsGrow(init, immutable, i, key);
    }
  }

  /** Each swap of a key finds a greater generation than every earlier one expected, so no two swaps with
      the same expectation are both applied. */
  lemma SwapsAreExclusive(events: seq<Event>, immutable: set<ObjectKey>, i: int, j: int, key: ObjectKey)
    requires i < j && SwapsAt(events, immutable, i, key) && SwapsAt(events, immutable, j, key)
    ensures ExpectedAt(events, immutable, i, key) < ExpectedAt(events, immutable, j, key)
  {
    assert events[..j][..i] == events[..i];
    assert SwapsAt(events[..j], immutable, i, key);
    GenerationsGrow(events[..j], immutable, i, key);
  }

  lemma SwapsEarlier(events: seq<Event>, e: Event, immutable: set<ObjectKey>, i: int, key: ObjectKey)
    requires i < |events|
    ensures SwapsAt(events + [e], immutable, i, key) <==> SwapsAt(events, immutable, i, key)
  {
    hide After;
    if 0 <= i { assert (events + [e])[..i] == events[..i]; }
  }

  ghost predicate LandsAt(events: seq<Event>, immutable: set<ObjectKey>, i: int, id: nat, key: ObjectKey) {
    SwapsAt(events, immutable, i, key) && events[i] == Land(id)
  }

  /** An operation counts as applied exactly when the bucket swapped for it. */
  lemma {:induction false} AppliedExactly(events: seq<Event>, immutable: set<ObjectKey>, id: nat)
    requires id in After(events, immutable).operations
    ensures var o := After(events, immutable).operations[id];
      o.applied <==> exists i :: LandsAt(events, immutable, i, id, o.key)
    decreases |events|
  {
    var init, e := events[..|events| - 1], events[|events| - 1];
    var w := After(init, immutable);
    var key := After(events, immutable).operations[id].key;
    assert events == init + [e];
    assert events[..|init|] == init;
    forall i ensures i < |init| ==> (LandsAt(events, immutable, i, id, key) <==> LandsAt(init, immutable, i, id, key)) {
      if i < |init| { SwapsEarlier(init, e, immutable, i, key); }
    }
    if id in w.operations {
      AppliedExactly(init, immutable, id);
      if Enabled(w, e, immutable) { OperationsKeep(w, e, immutable, id); }
      assert LandsAt(events, immutable, |init|, id, key) <==>
        e == Land(id) && Enabled(w, e, immutable) && Applies(w.objects, key, w.operations[id].expected);
    } else {
      NothingLanded(init, immutable, id);
    }
  }

  lemma OperationsKeep(w: World, e: Event, immutable: set<ObjectKey>, id: nat)
    requires id in w.operations && Enabled(w, e, immutable)
    ensures var o, o' := w.operations[id], Next(w, e).operations[id];
      && o'.key == o.key && o'.expected == o.expected && o'.content == o.content
      && (o'.applied <==> o.applied || (e == Land(id) && Applies(w.objects, o.key, o.expected)))
  {
  }

  lemma NothingLanded(events: seq<Event>, immutable: set<ObjectKey>, id: nat)
    requires id !in After(events, immutable).operations
    ensures forall i, key :: !LandsAt(events, immutable, i, id, key)
  {
    forall i, key ensures !LandsAt(events, immutable, i, id, key) {
      if 0 <= i < |events| && id in After(events[..i], immutable).operations { OperationsStay(events, immutable, i, id); }
    }
  }

  lemma {:induction false} OperationsStay(events: seq<Event>, immutable: set<ObjectKey>, i: nat, id: nat)
    requires i <= |events| && id in After(events[..i], immutable).operations
    ensures id in After(events, immutable).operations
    decreases |events|
  {
    if i < |events| {
      assert events[..|events| - 1][..i] == events[..i];
      OperationsStay(events[..|events| - 1], immutable, i, id);
    } else {
      assert events[..i] == events;
    }
  }

  /** The events of one immutable write whose reply is lost and that is then checked on. */
  function LostReply(id: nat, key: ObjectKey, content: Content): seq<Event> {
    [Request(id, key, None, content), Land(id), Report(id, false), Fetch(id, true)]
  }

  lemma AfterOne(events: seq<Event>, e: Event, immutable: set<ObjectKey>)
    requires Enabled(After(events, immutable), e, immutable)
    ensures After(events + [e], immutable) == Next(After(events, immutable), e)
  {
    assert (events + [e])[..|events + [e]| - 1] == events;
  }

  /** However the run went before, a write to an immutable key whose reply is lost is found to have
      succeeded exactly when the key was free or already held the content; then the key holds it. */
  lemma LostRepliesAreSettled(events: seq<Event>, immutable: set<ObjectKey>, id: nat, key: ObjectKey, content: Content)
    requires id !in After(events, immutable).operations
    ensures var w, w' := After(events, immutable), After(events + LostReply(id, key, content), immutable);
      && id in w'.operations
      && (w'.operations[id].stage.Succeeded? <==> key !in w.objects || w.objects[key].content == content)
      && (w'.operations[id].stage.Succeeded? ==> key in w'.objects && w'.objects[key].content == content)
      && (!w'.operations[id].stage.Succeeded? ==> w'.operations[id].stage.Refused? && w'.objects == w.objects)
  {
    var e := LostReply(id, key, content);
    AfterOne(events, e[0], immutable);
    AfterOne(events + [e[0]], e[1], immutable);
    AfterOne(events + [e[0]] + [e[1]], e[2], immutable);
    AfterOne(events + [e[0]] + [e[1]] + [e[2]], e[3], immutable);
    assert events + e == events + [e[0]] + [e[1]] + [e[2]] + [e[3]];
  }
}
