/** The residency timeline: from lifecycle reports to contiguous periods, and what they mean at each
    instant. */
module Residency {
  import opened Actors
  import opened Wrappers
  import opened Sorting

  const EVENT_LIMIT: nat := 10_000

  datatype Event = Event(
    actor: ActorId, epoch: nat, sequence: nat, occurred: nat, stopped: bool, resident: Option<bool>)

  datatype Status = Live | Dormant | Unknown

  datatype Period = Period(actor: ActorId, status: Status, from: nat, to: nat)

  function KeyOf(e: Event): Key {
    Key(e.epoch, e.sequence)
  }

  function Max(a: nat, b: nat): nat {
    if a < b then b else a
  }

  function Min(a: nat, b: nat): nat {
    if a < b then a else b
  }

  // ----- which reports are kept -----

  function Dedup(s: seq<Event>): (r: seq<Event>)
    ensures |s| > 0 ==> |r| > 0
  {
    if s == [] then []
    else
      var r, last := Dedup(s[..|s| - 1]), s[|s| - 1];
      if r != [] && KeyOf(r[|r| - 1]) == KeyOf(last) then r else r + [last]
  }

  function LatestTime(s: seq<Event>): nat {
    if s == [] then 0 else Max(LatestTime(s[..|s| - 1]), s[|s| - 1].occurred)
  }

  function Retained(s: seq<Event>): seq<Event> {
    if s == [] then []
    else
      var r, last := Retained(s[..|s| - 1]), s[|s| - 1];
      if last.occurred >= LatestTime(s[..|s| - 1]) then r + [last] else r
  }

  function Kept(events: seq<Event>): seq<Event> {
    Retained(Dedup(Sort(events, KeyOf)))
  }

  method DropRepeats(sorted: seq<Event>) returns (distinct: seq<Event>)
    ensures distinct == Dedup(sorted)
  {
    distinct := [];
    for i := 0 to |sorted|
      invariant distinct == Dedup(sorted[..i])
    {
      assert sorted[..i + 1][..i] == sorted[..i];
      if distinct == [] || KeyOf(distinct[|distinct| - 1]) != KeyOf(sorted[i]) {
        distinct := distinct + [sorted[i]];
      }
    }
    assert sorted[..|sorted|] == sorted;
  }

  method RetainOrdered(events: seq<Event>) returns (kept: seq<Event>)
    ensures kept == Retained(events)
  {
    kept := [];
    var latest := 0;
    for i := 0 to |events|
      invariant kept == Retained(events[..i]) && latest == LatestTime(events[..i])
    {
      assert events[..i + 1][..i] == events[..i];
      if events[i].occurred >= latest { kept := kept + [events[i]]; }
      latest := Max(latest, events[i].occurred);
    }
    assert events[..|events|] == events;
  }

  predicate Less(a: Key, b: Key) {
    Leq(a, b) && a != b
  }

  /** The report listed first among those with its epoch and sequence. */
  ghost predicate Original(events: seq<Event>, e: Event) {
    var same := WithKey(events, KeyOf, KeyOf(e));
    same != [] && same[0] == e
  }

  ghost predicate Ascending(s: seq<Event>) {
    forall i, j | 0 <= i < j < |s| :: Less(KeyOf(s[i]), KeyOf(s[j]))
  }

  ghost predicate Advancing(kept: seq<Event>) {
    forall i, j | 0 <= i < j < |kept| :: kept[i].occurred <= kept[j].occurred
  }

  lemma {:induction false} WithKeyMembers(s: seq<Event>, k: Key)
    ensures forall e :: e in WithKey(s, KeyOf, k) <==> e in s && KeyOf(e) == k
    decreases |s|
  {
    if s != [] {
      WithKeyMembers(s[..|s| - 1], k);
      assert s == s[..|s| - 1] + [s[|s| - 1]];
    }
  }

  lemma {:induction false} DedupShape(s: seq<Event>)
    ensures s != [] ==> KeyOf(Dedup(s)[|Dedup(s)| - 1]) == KeyOf(s[|s| - 1])
    ensures forall e | e in Dedup(s) :: e in s
    decreases |s|
  {
    if s != [] {
      DedupShape(s[..|s| - 1]);
      assert s == s[..|s| - 1] + [s[|s| - 1]];
    }
  }

  lemma {:induction false} DedupAscends(s: seq<Event>)
    requires Sorted(s, KeyOf)
    ensures Ascending(Dedup(s))
    decreases |s|
  {
    if s != [] {
      DedupAscends(s[..|s| - 1]);
      DedupShape(s[..|s| - 1]);
    }
  }

  /** A key above the last of a sorted list occurs nowhere in it. */
  lemma KeyIsNew(s: seq<Event>, k: Key)
    requires Sorted(s, KeyOf) && (s != [] ==> Less(KeyOf(s[|s| - 1]), k))
    ensures WithKey(s, KeyOf, k) == [] && forall e | e in s :: KeyOf(e) != k
  {
    forall e | e in s ensures KeyOf(e) != k {
      var i :| 0 <= i < |s| && s[i] == e;
      assert Leq(KeyOf(s[i]), KeyOf(s[|s| - 1]));
    }
    WithKeyMembers(s, k);
    assert forall e :: e !in WithKey(s, KeyOf, k);
  }

  /** One more report after a sorted list is an original exactly when its key is new. */
  lemma OriginalExtends(init: seq<Event>, last: Event, e: Event)
    requires Sorted(init, KeyOf) && (init != [] ==> Leq(KeyOf(init[|init| - 1]), KeyOf(last)))
    ensures Original(init + [last], e) <==>
      Original(init, e) || (e == last && (init == [] || KeyOf(init[|init| - 1]) != KeyOf(last)))
  {
    var s := init + [last];
    assert s[..|s| - 1] == init;
    if KeyOf(last) == KeyOf(e) {
      if init != [] && KeyOf(init[|init| - 1]) == KeyOf(e) {
        WithKeyMembers(init, KeyOf(e));
        assert init[|init| - 1] in WithKey(init, KeyOf, KeyOf(e));
      } else {
        KeyIsNew(init, KeyOf(e));
      }
    }
  }

  lemma {:induction false} DedupKeepsOriginals(s: seq<Event>, e: Event)
    requires Sorted(s, KeyOf)
    ensures e in Dedup(s) <==> Original(s, e)
    decreases |s|
  {
    if s != [] {
      var init, last := s[..|s| - 1], s[|s| - 1];
      assert s == init + [last];
      DedupKeepsOriginals(init, e);
      DedupShape(init);
      OriginalExtends(init, last, e);
    }
  }

  lemma {:induction false} LatestTimeBounds(s: seq<Event>)
    ensures forall e | e in s :: e.occurred <= LatestTime(s)
    ensures LatestTime(s) == 0 || exists e :: e in s && e.occurred == LatestTime(s)
    decreases |s|
  {
    if s != [] {
      LatestTimeBounds(s[..|s| - 1]);
      assert s == s[..|s| - 1] + [s[|s| - 1]];
    }
  }

  lemma {:induction false} RetainedSubset(s: seq<Event>)
    ensures forall e | e in Retained(s) :: e in s
    decreases |s|
  {
    if s != [] { RetainedSubset(s[..|s| - 1]); }
  }

  /** What is appended last has a greater key than all and is not earlier than any. */
  lemma AppendAdvances(kept: seq<Event>, last: Event)
    requires Ascending(kept) && Advancing(kept)
    requires forall e | e in kept :: Less(KeyOf(e), KeyOf(last)) && e.occurred <= last.occurred
    ensures Ascending(kept + [last]) && Advancing(kept + [last])
  {
    assert forall i | 0 <= i < |kept| :: kept[i] in kept;
  }

  lemma {:induction false} RetainedAdvances(s: seq<Event>)
    requires Ascending(s)
    ensures Ascending(Retained(s)) && Advancing(Retained(s))
    decreases |s|
  {
    if s != [] {
      var init, last := s[..|s| - 1], s[|s| - 1];
      RetainedAdvances(init);
      if last.occurred >= LatestTime(init) {
        LatestTimeBounds(init);
        RetainedSubset(init);
        assert forall e | e in init :: Less(KeyOf(e), KeyOf(last));
        AppendAdvances(Retained(init), last);
      }
    }
  }

  ghost predicate NoneLater(s: seq<Event>, e: Event) {
    forall d | d in s && Less(KeyOf(d), KeyOf(e)) :: d.occurred <= e.occurred
  }

  lemma NoneLaterExtends(init: seq<Event>, last: Event, e: Event)
    requires forall d | d in init :: Less(KeyOf(d), KeyOf(last))
    ensures e in init ==> (NoneLater(init + [last], e) <==> NoneLater(init, e))
    ensures NoneLater(init + [last], last) <==> LatestTime(init) <= last.occurred
  {
    LatestTimeBounds(init);
  }

  lemma {:induction false} RetainedExactly(s: seq<Event>, e: Event)
    requires Ascending(s)
    ensures e in Retained(s) <==> e in s && NoneLater(s, e)
    decreases |s|
  {
    if s != [] {
      var init, last := s[..|s| - 1], s[|s| - 1];
      assert s == init + [last];
      RetainedExactly(init, e);
      NoneLaterExtends(init, last, e);
    }
  }

  /** A report is kept exactly when it is the first listed under its key and no report so listed with
      a smaller key claims a later time. */
  lemma KeptExactly(events: seq<Event>, e: Event)
    ensures e in Kept(events) <==>
      Original(events, e) && forall d | Original(events, d) && Less(KeyOf(d), KeyOf(e)) :: d.occurred <= e.occurred
  {
    var sorted := Sort(events, KeyOf);
    SortSorts(events, KeyOf);
    DedupAscends(sorted);
    RetainedExactly(Dedup(sorted), e);
    forall d ensures d in Dedup(sorted) <==> Original(events, d) {
      DedupKeepsOriginals(sorted, d);
      SortStable(events, KeyOf, KeyOf(d));
    }
  }

  /** Kept reports advance in key and never go back in time. */
  lemma KeptAdvances(events: seq<Event>)
    ensures Ascending(Kept(events)) && Advancing(Kept(events))
  {
    SortSorts(events, KeyOf);
    DedupAscends(Sort(events, KeyOf));
    RetainedAdvances(Dedup(Sort(events, KeyOf)));
  }

  // ----- periods -----

  function Pushed(periods: seq<Period>, actor: ActorId, status: Status, from: nat, to: nat): seq<Period> {
    if from >= to then periods
    else if periods == [] then [Period(actor, status, from, to)]
    else
      var last := periods[|periods| - 1];
      if last.actor == actor && last.status == status && last.to == from
      then periods[|periods| - 1 := last.(to := to)]
      else periods + [Period(actor, status, from, to)]
  }

  function EndOf(kept: seq<Event>, i: nat, to: nat): nat {
    if i + 1 < |kept| then Min(kept[i + 1].occurred, to) else to
  }

  function KnownUntil(kept: seq<Event>, i: nat, to: nat): nat
    requires i < |kept|
  {
    var end := EndOf(kept, i, to);
    if kept[i].stopped then end else Min(Min(kept[i].occurred + STALE_AFTER, U64_MAX), end)
  }

  function Reported(e: Event): Status {
    if e.stopped || e.resident == Some(false) then Dormant
    else if e.resident == Some(true) then Live
    else Unknown
  }

  /** The periods one report contributes: its own status while it is fresh, then the unknown. */
  function Extended(periods: seq<Period>, actor: ActorId, kept: seq<Event>, i: nat, from: nat, to: nat): seq<Period>
    requires i < |kept|
  {
    var start, known := Max(kept[i].occurred, from), KnownUntil(kept, i, to);
    Pushed(Pushed(periods, actor, Reported(kept[i]), start, known), actor, Unknown, Max(start, known), EndOf(kept, i, to))
  }

  function Timeline(actor: ActorId, kept: seq<Event>, n: nat, from: nat, to: nat): seq<Period>
    requires n <= |kept|
  {
    if n == 0 then [] else Extended(Timeline(actor, kept, n - 1, from, to), actor, kept, n - 1, from, to)
  }

  // ----- what a timeline means -----

  ghost function LastBefore(kept: seq<Event>, t: nat): Option<Event> {
    if kept == [] then None
    else if kept[|kept| - 1].occurred <= t then Some(kept[|kept| - 1])
    else LastBefore(kept[..|kept| - 1], t)
  }

  /** The status at one instant: that of the last kept report, which goes stale unless it is a stop. */
  ghost function StatusAt(kept: seq<Event>, t: nat): Status {
    match LastBefore(kept, t)
    case None => Unknown
    case Some(e) =>
      if e.stopped then Dormant
      else if t >= e.occurred + STALE_AFTER then Unknown
      else
        match e.resident
        case Some(resident) => if resident then Live else Dormant
        case None => Unknown
  }

  /** Periods without gap or overlap, neighbours differing, from `lo` up to `hi`. */
  ghost predicate Tiles(periods: seq<Period>, actor: ActorId, lo: nat, hi: nat) {
    && lo <= hi
    && (periods == [] <==> lo == hi)
    && (periods != [] ==> periods[0].from == lo && periods[|periods| - 1].to == hi)
    && (forall i | 0 <= i < |periods| :: periods[i].from < periods[i].to && periods[i].actor == actor)
    && (forall i | 0 < i < |periods| ::
          periods[i - 1].to == periods[i].from && periods[i - 1].status != periods[i].status)
  }

  /** Whichever period holds the instant shows the given status. */
  ghost predicate Shows(periods: seq<Period>, t: nat, status: Status) {
    forall i | 0 <= i < |periods| && periods[i].from <= t < periods[i].to :: periods[i].status == status
  }

  lemma AppendTiles(periods: seq<Period>, actor: ActorId, status: Status, lo: nat, from: nat, to: nat)
    requires Tiles(periods, actor, lo, from) && from < to
    requires periods == [] || periods[|periods| - 1].status != status
    ensures Tiles(periods + [Period(actor, status, from, to)], actor, lo, to)
  {
  }

  lemma StretchTiles(periods: seq<Period>, actor: ActorId, lo: nat, from: nat, to: nat)
    requires Tiles(periods, actor, lo, from) && from < to && periods != []
    ensures Tiles(periods[|periods| - 1 := periods[|periods| - 1].(to := to)], actor, lo, to)
  {
  }

  lemma PushKeepsTiling(periods: seq<Period>, actor: ActorId, status: Status, lo: nat, from: nat, to: nat)
    requires Tiles(periods, actor, lo, from)
    ensures Tiles(Pushed(periods, actor, status, from, to), actor, lo, Max(from, to))
  {
    if from < to {
      if periods != [] && periods[|periods| - 1].status == status {
        StretchTiles(periods, actor, lo, from, to);
      } else {
        AppendTiles(periods, actor, status, lo, from, to);
        assert periods == [] ==> periods + [Period(actor, status, from, to)] == [Period(actor, status, from, to)];
      }
    }
  }

  lemma PushShows(periods: seq<Period>, actor: ActorId, status: Status, from: nat, to: nat, t: nat, shown: Status)
    requires Shows(periods, t, shown) && (from <= t < to ==> status == shown)
    ensures Shows(Pushed(periods, actor, status, from, to), t, shown)
  {
  }

  lemma {:induction false} LastBeforeIs(kept: seq<Event>, i: nat, t: nat)
    requires Advancing(kept) && i < |kept| && kept[i].occurred <= t
    requires i + 1 < |kept| ==> t < kept[i + 1].occurred
    ensures LastBefore(kept, t) == Some(kept[i])
    decreases |kept|
  {
    if i + 1 < |kept| {
      assert kept[i + 1].occurred <= kept[|kept| - 1].occurred;
      LastBeforeIs(kept[..|kept| - 1], i, t);
    }
  }

  /** Where the first `n` reports' periods end. */
  ghost function Reached(kept: seq<Event>, n: nat, from: nat, to: nat): nat
    requires kept != []
  {
    Max(Max(from, kept[0].occurred), if n < |kept| then Min(kept[n].occurred, to) else to)
  }

  /** A report that contributes something begins where the periods before it end. */
  lemma ReachedStep(kept: seq<Event>, i: nat, from: nat, to: nat)
    requires Advancing(kept) && i < |kept|
    ensures var start, end := Max(kept[i].occurred, from), EndOf(kept, i, to);
      if start < end then Reached(kept, i, from, to) == start && Reached(kept, i + 1, from, to) == end
      else Reached(kept, i + 1, from, to) == Reached(kept, i, from, to)
  {
    assert i > 0 ==> kept[0].occurred <= kept[i].occurred;
    assert i + 1 < |kept| ==> kept[i].occurred <= kept[i + 1].occurred;
  }

  lemma StatusDuringReport(kept: seq<Event>, i: nat, to: nat, t: nat)
    requires Advancing(kept) && i < |kept| && to <= U64_MAX
    requires kept[i].occurred <= t < EndOf(kept, i, to)
    ensures StatusAt(kept, t) == if t < KnownUntil(kept, i, to) then Reported(kept[i]) else Unknown
  {
    LastBeforeIs(kept, i, t);
  }

  lemma ReportTiles(periods: seq<Period>, actor: ActorId, kept: seq<Event>, i: nat, lo: nat, from: nat, to: nat)
    requires Advancing(kept) && i < |kept|
    requires Tiles(periods, actor, lo, Reached(kept, i, from, to))
    ensures Tiles(Extended(periods, actor, kept, i, from, to), actor, lo, Reached(kept, i + 1, from, to))
  {
    var start, end, known := Max(kept[i].occurred, from), EndOf(kept, i, to), KnownUntil(kept, i, to);
    ReachedStep(kept, i, from, to);
    if start < end {
      var first := Pushed(periods, actor, Reported(kept[i]), start, known);
      PushKeepsTiling(periods, actor, Reported(kept[i]), lo, start, known);
      PushKeepsTiling(first, actor, Unknown, lo, Max(start, known), end);
    }
  }

  /** At instant `t`, if report `i` is the one in force there, `shown` is what it implies. */
  ghost predicate Implied(kept: seq<Event>, i: nat, from: nat, to: nat, t: nat, shown: Status)
    requires i < |kept|
  {
    Max(kept[i].occurred, from) <= t < EndOf(kept, i, to) ==>
      shown == if t < KnownUntil(kept, i, to) then Reported(kept[i]) else Unknown
  }

  lemma ReportShows(
    periods: seq<Period>, actor: ActorId, kept: seq<Event>, i: nat, from: nat, to: nat, t: nat, shown: Status)
    requires i < |kept| && Implied(kept, i, from, to, t, shown) && Shows(periods, t, shown)
    ensures Shows(Extended(periods, actor, kept, i, from, to), t, shown)
  {
    var start, end, known := Max(kept[i].occurred, from), EndOf(kept, i, to), KnownUntil(kept, i, to);
    PushShows(periods, actor, Reported(kept[i]), start, known, t, shown);
    PushShows(Pushed(periods, actor, Reported(kept[i]), start, known), actor, Unknown, Max(start, known), end, t, shown);
  }

  lemma {:induction false} TimelineTiles(actor: ActorId, kept: seq<Event>, n: nat, from: nat, to: nat)
    requires Advancing(kept) && kept != [] && n <= |kept|
    ensures Tiles(Timeline(actor, kept, n, from, to), actor, Max(from, kept[0].occurred), Reached(kept, n, from, to))
    decreases n
  {
    if n == 0 {
      assert Reached(kept, 0, from, to) == Max(from, kept[0].occurred);
    } else {
      TimelineTiles(actor, kept, n - 1, from, to);
      ReportTiles(Timeline(actor, kept, n - 1, from, to), actor, kept, n - 1, Max(from, kept[0].occurred), from, to);
    }
  }

  lemma {:induction false} TimelineShows(
    actor: ActorId, kept: seq<Event>, n: nat, from: nat, to: nat, t: nat, shown: Status)
    requires n <= |kept| && forall i | 0 <= i < |kept| :: Implied(kept, i, from, to, t, shown)
    ensures Shows(Timeline(actor, kept, n, from, to), t, shown)
    decreases n
  {
    hide Extended, Implied;
    if n > 0 {
      TimelineShows(actor, kept, n - 1, from, to, t, shown);
      ReportShows(Timeline(actor, kept, n - 1, from, to), actor, kept, n - 1, from, to, t, shown);
    }
  }

  /** An actor's periods tile the window from its first kept report on, and show at every instant the
      status that the kept reports imply. */
  lemma TimelineMeansStatus(actor: ActorId, kept: seq<Event>, from: nat, to: nat)
    requires Advancing(kept) && kept != [] && to <= U64_MAX
    ensures var periods, lo := Timeline(actor, kept, |kept|, from, to), Max(from, kept[0].occurred);
      && Tiles(periods, actor, lo, Max(lo, to))
      && forall t: nat :: Shows(periods, t, StatusAt(kept, t))
  {
    TimelineTiles(actor, kept, |kept|, from, to);
    forall t: nat ensures Shows(Timeline(actor, kept, |kept|, from, to), t, StatusAt(kept, t)) {
      forall i | 0 <= i < |kept| ensures Implied(kept, i, from, to, t, StatusAt(kept, t)) {
        if Max(kept[i].occurred, from) <= t < EndOf(kept, i, to) { StatusDuringReport(kept, i, to, t); }
      }
      TimelineShows(actor, kept, |kept|, from, to, t, StatusAt(kept, t));
    }
  }

  // ----- the history of all actors -----

  function ForActor(events: seq<Event>, actor: ActorId): seq<Event> {
    if events == [] then []
    else
      var before, last := ForActor(events[..|events| - 1], actor), events[|events| - 1];
      if last.actor == actor then before + [last] else before
  }

  /** An actor's reports are those that name it, each as often as it was reported. */
  lemma {:induction false} ForActorIsOwn(events: seq<Event>, actor: ActorId, e: Event)
    ensures multiset(ForActor(events, actor))[e] == if e.actor == actor then multiset(events)[e] else 0
    ensures e in ForActor(events, actor) <==> e in events && e.actor == actor
    decreases |events|
  {
    if events != [] {
      var init, last := events[..|events| - 1], events[|events| - 1];
      assert events == init + [last];
      ForActorIsOwn(init, actor, e);
    }
  }

  /** Picking an actor's reports keeps their order. */
  lemma {:induction false} ForActorConcat(a: seq<Event>, b: seq<Event>, actor: ActorId)
    ensures ForActor(a + b, actor) == ForActor(a, actor) + ForActor(b, actor)
    decreases |b|
  {
    if b == [] {
      assert a + b == a;
    } else {
      assert (a + b)[..|a + b| - 1] == a + b[..|b| - 1];
      ForActorConcat(a, b[..|b| - 1], actor);
    }
  }

  /** One actor's whole timeline. */
  function TimelineOf(events: seq<Event>, actor: ActorId, from: nat, to: nat): seq<Period> {
    var kept := Kept(ForActor(events, actor));
    Timeline(actor, kept, |kept|, from, to)
  }

  function Timelines(events: seq<Event>, actors: seq<ActorId>, from: nat, to: nat): seq<Period> {
    if actors == [] then []
    else Timelines(events, actors[..|actors| - 1], from, to) + TimelineOf(events, actors[|actors| - 1], from, to)
  }

  function Considered(events: seq<Event>): seq<Event> {
    events[..Min(|events|, EVENT_LIMIT)]
  }

  /** Pushing for one actor leaves the periods of others alone. */
  lemma PushFrames(others: seq<Period>, own: seq<Period>, actor: ActorId, status: Status, from: nat, to: nat)
    requires others != [] ==> others[|others| - 1].actor != actor
    ensures Pushed(others + own, actor, status, from, to) == others + Pushed(own, actor, status, from, to)
  {
    if own == [] { assert others + own == others; }
  }

  method Push(periods: seq<Period>, actor: ActorId, status: Status, from: nat, to: nat) returns (r: seq<Period>)
    ensures r == Pushed(periods, actor, status, from, to)
  {
    if from >= to { return periods; }
    if periods != [] {
      var last := periods[|periods| - 1];
      if last.actor == actor && last.status == status && last.to == from {
        return periods[|periods| - 1 := last.(to := to)];
      }
    }
    return periods + [Period(actor, status, from, to)];
  }

  method Group(events: seq<Event>) returns (instances: map<ActorId, seq<Event>>)
    ensures forall actor :: actor in instances <==> ForActor(events, actor) != []
    ensures forall actor | actor in instances :: instances[actor] == ForActor(events, actor)
  {
    instances := map[];
    for i := 0 to |events|
      invariant forall actor :: actor in instances <==> ForActor(events[..i], actor) != []
      invariant forall actor | actor in instances :: instances[actor] == ForActor(events[..i], actor)
    {
      assert events[..i + 1][..i] == events[..i];
      var actor := events[i].actor;
      var earlier := if actor in instances then instances[actor] else [];
      instances := instances[actor := earlier + [events[i]]];
    }
    assert events[..|events|] == events;
  }

  /** Adds one actor's periods behind those of the actors before it. */
  method Report(periods: seq<Period>, actor: ActorId, events: seq<Event>, from: nat, to: nat) returns (r: seq<Period>)
    requires periods != [] ==> periods[|periods| - 1].actor != actor
    ensures var kept := Kept(events); r == periods + Timeline(actor, kept, |kept|, from, to)
  {
    var distinct := DropRepeats(Sort(events, KeyOf));
    var kept := RetainOrdered(distinct);
    r := periods;
    for i := 0 to |kept|
      invariant r == periods + Timeline(actor, kept, i, from, to)
    {
      var start, end, known := Max(kept[i].occurred, from), EndOf(kept, i, to), KnownUntil(kept, i, to);
      ghost var own := Timeline(actor, kept, i, from, to);
      PushFrames(periods, own, actor, Reported(kept[i]), start, known);
      PushFrames(periods, Pushed(own, actor, Reported(kept[i]), start, known), actor, Unknown, Max(start, known), end);
      r := Push(r, actor, Reported(kept[i]), start, known);
      r := Push(r, actor, Unknown, Max(start, known), end);
    }
  }

  lemma {:induction false} TimelineIsOwn(actor: ActorId, kept: seq<Event>, n: nat, from: nat, to: nat)
    requires n <= |kept|
    ensures forall p | p in Timeline(actor, kept, n, from, to) :: p.actor == actor
    decreases n
  {
    if n > 0 { TimelineIsOwn(actor, kept, n - 1, from, to); }
  }

  /** The actors are visited in any fixed order, `order`. */
  method History(events: seq<Event>, order: seq<ActorId>, from: nat, to: nat)
    returns (periods: seq<Period>, truncated: bool)
    requires Distinct(order)
    requires forall actor :: actor in order <==> ForActor(Considered(events), actor) != []
    ensures periods == Timelines(Considered(events), order, from, to)
    ensures truncated <==> |events| > EVENT_LIMIT
  {
    truncated := |events| > EVENT_LIMIT;
    var considered := events[..Min(|events|, EVENT_LIMIT)];
    var instances := Group(considered);
    periods := [];
    for i := 0 to |order|
      invariant periods == Timelines(considered, order[..i], from, to)
      invariant forall p | p in periods :: p.actor in order[..i]
    {
      var actor := order[i];
      assert order[..i + 1][..i] == order[..i];
      assert actor !in order[..i] && actor in order;
      assert periods != [] ==> periods[|periods| - 1] in periods;
      var kept := Kept(ForActor(considered, actor));
      TimelineIsOwn(actor, kept, |kept|, from, to);
      periods := Report(periods, actor, instances[actor], from, to);
    }
    assert order[..|order|] == order;
  }

  // ----- the history, read back actor by actor -----

  function PeriodsOf(periods: seq<Period>, actor: ActorId): seq<Period> {
    if periods == [] then []
    else
      var before, last := PeriodsOf(periods[..|periods| - 1], actor), periods[|periods| - 1];
      if last.actor == actor then before + [last] else before
  }

  lemma {:induction false} PeriodsOfConcat(a: seq<Period>, b: seq<Period>, actor: ActorId)
    ensures PeriodsOf(a + b, actor) == PeriodsOf(a, actor) + PeriodsOf(b, actor)
    decreases |b|
  {
    if b == [] {
      assert a + b == a;
    } else {
      assert (a + b)[..|a + b| - 1] == a + b[..|b| - 1];
      PeriodsOfConcat(a, b[..|b| - 1], actor);
    }
  }

  lemma {:induction false} PeriodsOfOne(periods: seq<Period>, owner: ActorId, actor: ActorId)
    requires forall p | p in periods :: p.actor == owner
    ensures PeriodsOf(periods, actor) == if actor == owner then periods else []
    decreases |periods|
  {
    if periods != [] {
      PeriodsOfOne(periods[..|periods| - 1], owner, actor);
      assert periods[|periods| - 1] in periods;
    }
  }

  lemma TimelineOfOne(events: seq<Event>, owner: ActorId, from: nat, to: nat, actor: ActorId)
    ensures PeriodsOf(TimelineOf(events, owner, from, to), actor)
         == if actor == owner then TimelineOf(events, owner, from, to) else []
  {
    var kept := Kept(ForActor(events, owner));
    TimelineIsOwn(owner, kept, |kept|, from, to);
    PeriodsOfOne(TimelineOf(events, owner, from, to), owner, actor);
  }

  lemma NoPeriods(actor: ActorId)
    ensures PeriodsOf([], actor) == []
  {
  }

  lemma DistinctInit(order: seq<ActorId>)
    requires order != [] && Distinct(order)
    ensures Distinct(order[..|order| - 1]) && order[|order| - 1] !in order[..|order| - 1]
  {
  }

  lemma {:induction false} TimelinesSplit(events: seq<Event>, order: seq<ActorId>, from: nat, to: nat, actor: ActorId)
    requires Distinct(order)
    ensures PeriodsOf(Timelines(events, order, from, to), actor)
         == if actor in order then TimelineOf(events, actor, from, to) else []
    decreases |order|
  {
    hide TimelineOf, PeriodsOf, Distinct;
    if order == [] {
      NoPeriods(actor);
    } else {
      var init, last := order[..|order| - 1], order[|order| - 1];
      DistinctInit(order);
      TimelinesSplit(events, init, from, to, actor);
      TimelineOfOne(events, last, from, to, actor);
      PeriodsOfConcat(Timelines(events, init, from, to), TimelineOf(events, last, from, to), actor);
      assert order == init + [last];
    }
  }

  /** The report with the smallest key is always kept. */
  lemma {:induction false} SomeAreRetained(s: seq<Event>)
    requires s != []
    ensures Retained(s) != []
    decreases |s|
  {
    if |s| > 1 {
      SomeAreRetained(s[..|s| - 1]);
    } else {
      assert s[..0] == [] && LatestTime(s[..0]) == 0;
    }
  }

  /** An actor keeps a report exactly when it has one. */
  lemma KeptIfReported(events: seq<Event>)
    ensures Kept(events) == [] <==> events == []
  {
    if events != [] { SomeAreRetained(Dedup(Sort(events, KeyOf))); }
  }

  /** Whatever the reports and the window, each reported actor's periods tile the window from its first
      kept report on, neighbours differing, and show at each instant the status that its kept reports
      imply; other actors have none. */
  lemma HistoryMeansStatus(events: seq<Event>, order: seq<ActorId>, from: nat, to: nat, actor: ActorId)
    requires Distinct(order) && to <= U64_MAX
    requires forall a :: a in order <==> ForActor(events, a) != []
    ensures var periods, kept := PeriodsOf(Timelines(events, order, from, to), actor), Kept(ForActor(events, actor));
      && (kept == [] <==> ForActor(events, actor) == [])
      && (kept == [] ==> periods == [])
      && (kept != [] ==>
            && Tiles(periods, actor, Max(from, kept[0].occurred), Max(Max(from, kept[0].occurred), to))
            && forall t: nat :: Shows(periods, t, StatusAt(kept, t)))
  {
    TimelinesSplit(events, order, from, to, actor);
    var own := ForActor(events, actor);
    KeptAdvances(own);
    KeptIfReported(own);
    if Kept(own) != [] {
      TimelineMeansStatus(actor, Kept(own), from, to);
    }
  }
}
