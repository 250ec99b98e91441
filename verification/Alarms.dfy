/** Scheduled alarms: the store that hands them out, and the polling loop that delivers them with a
    bounded number of slots. Times are milliseconds. */
module Alarms {
  import opened Actors
  import opened Wrappers
  import opened Sorting

  const MAX_IN_FLIGHT: nat := 100
  const MAX_ATTEMPTS: nat := 3
  const MIN_RETRY_DELAY: nat := 1_000
  const ATTEMPT_TIMEOUT: nat := 60_000
  const QUEUED_TIMEOUT: nat := 300_000

  datatype Alarm = Alarm(revision: nat, timestamp: Option<int>, queuedAt: Option<int>)

  datatype Claim = Claim(actor: ActorId, revision: nat, at: nat)

  type Store = map<ActorId, Alarm>

  // ----- the store -----

  function TimestampOf(store: Store, actor: ActorId): Option<int> {
    if actor in store then store[actor].timestamp else None
  }

  /** A new schedule, or none when the revision can no longer grow. */
  function Updated(store: Store, actor: ActorId, timestamp: Option<int>): Option<Store> {
    if actor !in store then Some(store[actor := Alarm(1, timestamp, None)])
    else if store[actor].revision >= U64_MAX then None
    else Some(store[actor := Alarm(store[actor].revision + 1, timestamp, None)])
  }

  predicate Due(store: Store, actor: ActorId, now: int, expiredBefore: int) {
    && actor in store && store[actor].timestamp.Some? && store[actor].timestamp.value <= now
    && (store[actor].queuedAt.None? || store[actor].queuedAt.value <= expiredBefore)
  }

  function DueAmong(store: Store, actors: seq<ActorId>, now: int, expiredBefore: int): seq<(int, ActorId)> {
    if actors == [] then []
    else
      var before, a := DueAmong(store, actors[..|actors| - 1], now, expiredBefore), actors[|actors| - 1];
      if Due(store, a, now, expiredBefore) then before + [(store[a].timestamp.value, a)] else before
  }

  function ByTimestamp(due: (int, ActorId)): Key {
    Key(due.0, 0)
  }

  /** The due alarms, earliest first, as many as the limit allows. */
  function Selected(store: Store, actors: seq<ActorId>, now: int, expiredBefore: int, limit: nat): seq<(int, ActorId)> {
    var due := Sort(DueAmong(store, actors, now, expiredBefore), ByTimestamp);
    due[..if |due| < limit then |due| else limit]
  }

  function Marked(store: Store, selected: seq<(int, ActorId)>, now: int): Store {
    if selected == [] then store
    else
      var before, a := Marked(store, selected[..|selected| - 1], now), selected[|selected| - 1].1;
      if a in before then before[a := before[a].(queuedAt := Some(now))] else before
  }

  function ClaimsOf(store: Store, selected: seq<(int, ActorId)>, now: nat): (r: seq<Claim>)
    requires forall d | d in selected :: d.1 in store
    ensures |r| == |selected|
    ensures forall i | 0 <= i < |r| :: r[i] == Claim(selected[i].1, store[selected[i].1].revision, now)
  {
    seq(|selected|, i requires 0 <= i < |selected| =>
      assert selected[i] in selected; Claim(selected[i].1, store[selected[i].1].revision, now))
  }

  function Finished(store: Store, claim: Claim): Store {
    if claim.actor in store && store[claim.actor].revision == claim.revision
    then store[claim.actor := store[claim.actor].(timestamp := None, queuedAt := None)]
    else store
  }

  lemma {:induction false} DueMembers(store: Store, actors: seq<ActorId>, now: int, expiredBefore: int)
    ensures forall d :: d in DueAmong(store, actors, now, expiredBefore) <==>
      d.1 in actors && Due(store, d.1, now, expiredBefore) && d.0 == store[d.1].timestamp.value
    decreases |actors|
  {
    if actors != [] {
      DueMembers(store, actors[..|actors| - 1], now, expiredBefore);
      assert actors == actors[..|actors| - 1] + [actors[|actors| - 1]];
    }
  }

  lemma SelectionIsDue(store: Store, actors: seq<ActorId>, now: int, expiredBefore: int, limit: nat)
    ensures var r := Selected(store, actors, now, expiredBefore, limit);
      && |r| <= limit
      && forall d | d in r :: d.1 in actors && Due(store, d.1, now, expiredBefore) && d.0 == store[d.1].timestamp.value
  {
    var due := DueAmong(store, actors, now, expiredBefore);
    DueMembers(store, actors, now, expiredBefore);
    SortSorts(due, ByTimestamp);
    forall d | d in Selected(store, actors, now, expiredBefore, limit) ensures d in due {
      assert d in Sort(due, ByTimestamp);
    }
  }

  /** The selection is in order of time; a due alarm is passed over only when the limit is reached, and
      then nothing selected is later than it. */
  lemma SelectionIsEarliest(store: Store, actors: seq<ActorId>, now: int, expiredBefore: int, limit: nat)
    ensures var r := Selected(store, actors, now, expiredBefore, limit);
      && (forall i, j | 0 <= i < j < |r| :: r[i].0 <= r[j].0)
      && (forall a | a in actors && Due(store, a, now, expiredBefore) && (store[a].timestamp.value, a) !in r ::
            |r| == limit && forall d | d in r :: d.0 <= store[a].timestamp.value)
  {
    hide DueAmong, Sort;
    var due := DueAmong(store, actors, now, expiredBefore);
    var sorted := Sort(due, ByTimestamp);
    var r := Selected(store, actors, now, expiredBefore, limit);
    SortSorts(due, ByTimestamp);
    assert forall i, j | 0 <= i < j < |sorted| :: Leq(ByTimestamp(sorted[i]), ByTimestamp(sorted[j]));
    forall a | a in actors && Due(store, a, now, expiredBefore) && (store[a].timestamp.value, a) !in r
      ensures |r| == limit && forall d | d in r :: d.0 <= store[a].timestamp.value
    {
      DueMembers(store, actors, now, expiredBefore);
      assert (store[a].timestamp.value, a) in sorted;
      var i :| 0 <= i < |sorted| && sorted[i] == (store[a].timestamp.value, a);
      assert forall j | 0 <= j < |r| :: r[j] in r && r[j] == sorted[j];
      assert |r| <= i;
    }
  }

  class MemoryAlarmStore {
    var alarms: Store

    constructor ()
      ensures alarms == map[]
    {
      alarms := map[];
    }

    method Get(actor: ActorId) returns (timestamp: Option<int>)
      ensures timestamp == TimestampOf(alarms, actor)
    {
      return if actor in alarms then alarms[actor].timestamp else None;
    }

    method Update(actor: ActorId, timestamp: Option<int>) returns (ok: bool)
      modifies this
      ensures ok == Updated(old(alarms), actor, timestamp).Some?
      ensures alarms == if ok then Updated(old(alarms), actor, timestamp).value else old(alarms)
    {
      var revision := 1;
      if actor in alarms {
        if alarms[actor].revision >= U64_MAX { return false; }
        revision := alarms[actor].revision + 1;
      }
      alarms := alarms[actor := Alarm(revision, timestamp, None)];
      return true;
    }

    method CollectDue(actors: seq<ActorId>, now: int, expiredBefore: int) returns (due: seq<(int, ActorId)>)
      ensures due == DueAmong(alarms, actors, now, expiredBefore)
    {
      due := [];
      for i := 0 to |actors|
        invariant due == DueAmong(alarms, actors[..i], now, expiredBefore)
      {
        assert actors[..i + 1][..i] == actors[..i];
        if Due(alarms, actors[i], now, expiredBefore) {
          due := due + [(alarms[actors[i]].timestamp.value, actors[i])];
        }
      }
      assert actors[..|actors|] == actors;
    }

    method Mark(selected: seq<(int, ActorId)>, now: nat) returns (claims: seq<Claim>)
      requires forall d | d in selected :: d.1 in alarms
      modifies this
      ensures claims == ClaimsOf(old(alarms), selected, now)
      ensures alarms == Marked(old(alarms), selected, now)
    {
      claims := [];
      for i := 0 to |selected|
        invariant alarms == Marked(old(alarms), selected[..i], now)
        invariant forall a | a in old(alarms) :: a in alarms && alarms[a].revision == old(alarms)[a].revision
        invariant claims == ClaimsOf(old(alarms), selected, now)[..i]
      {
        assert selected[..i + 1][..i] == selected[..i];
        assert selected[i] in selected;
        var actor := selected[i].1;
        alarms := alarms[actor := alarms[actor].(queuedAt := Some(now))];
        claims := claims + [Claim(actor, alarms[actor].revision, now)];
      }
      assert selected[..|selected|] == selected;
    }

    /** `actors` is the order in which the table happens to list its keys. */
    method ClaimDue(actors: seq<ActorId>, now: nat, expiredBefore: int, limit: nat) returns (claims: seq<Claim>)
      requires forall a | a in actors :: a in alarms
      modifies this
      ensures var selected := Selected(old(alarms), actors, now, expiredBefore, limit);
        && (forall d | d in selected :: d.1 in old(alarms))
        && claims == ClaimsOf(old(alarms), selected, now)
        && alarms == Marked(old(alarms), selected, now)
    {
      var due := CollectDue(actors, now, expiredBefore);
      due := Sort(due, ByTimestamp);
      var selected := due[..if |due| < limit then |due| else limit];
      SelectionIsDue(alarms, actors, now, expiredBefore, limit);
      claims := Mark(selected, now);
    }

    method Finish(claim: Claim)
      modifies this
      ensures alarms == Finished(old(alarms), claim)
    {
      if claim.actor in alarms && alarms[claim.actor].revision == claim.revision {
        alarms := alarms[claim.actor := alarms[claim.actor].(timestamp := None, queuedAt := None)];
      }
    }
  }

  // ----- the polling loop -----

  /** A delivery makes up to three attempts, each cut off after a minute, with a pause after each
      failed one but the last. */
  datatype Stage = Attempting(attempt: nat, since: nat) | Pausing(attempt: nat, until: nat) | Concluded

  datatype Task = Task(begun: nat, stage: Stage)

  /** `queue` holds the claims not yet given a slot and `tasks` the deliveries that hold one; both
      name claims by their place in `claims`. */
  datatype Scheduler = Scheduler(
    store: Store, now: nat, available: nat, queue: seq<nat>, tasks: map<nat, Task>, claims: seq<Claim>)

  const Initial: Scheduler := Scheduler(map[], 0, MAX_IN_FLIGHT, [], map[], [])

  datatype Event =
    | Pass(elapsed: nat)
    | Schedule(actor: ActorId, timestamp: Option<int>)
    | Poll(actors: seq<ActorId>)
    | Spawn
    | Fail(task: nat, jitter: nat)
    | Retry(task: nat)
    | Conclude(task: nat)
    | Finish(task: nat, recorded: bool)

  ghost predicate Lists(actors: seq<ActorId>, store: Store) {
    (forall a :: a in actors <==> a in store) && Distinct(actors)
  }

  /** The pause after a failed attempt doubles; jitter stretches it by at most its own length. */
  function Pause(attempt: nat): nat {
    if attempt <= 1 then MIN_RETRY_DELAY else 2 * Pause(attempt - 1)
  }

  /** The timers of a delivery: its attempt is cut off, its pause ends. */
  predicate Within(stage: Stage, time: nat) {
    match stage
    case Attempting(_, since) => time <= since + ATTEMPT_TIMEOUT
    case Pausing(_, until) => time <= until
    case Concluded => true
  }

  /** Only how long a claim waits for its delivery to begin is left open: `lag` bounds it. */
  ghost predicate Enabled(s: Scheduler, e: Event, lag: nat) {
    match e
    case Pass(elapsed) => forall i | i in s.tasks :: Within(s.tasks[i].stage, s.now + elapsed)
    case Schedule(_, _) => true
    case Poll(actors) => s.queue == [] && Lists(actors, s.store)
    case Spawn => s.queue != [] && s.queue[0] < |s.claims| && s.now <= s.claims[s.queue[0]].at + lag
    case Fail(i, jitter) =>
      && i in s.tasks && s.tasks[i].stage.Attempting? && s.tasks[i].stage.attempt < MAX_ATTEMPTS
      && jitter <= Pause(s.tasks[i].stage.attempt)
    case Retry(i) => i in s.tasks && s.tasks[i].stage.Pausing? && s.now >= s.tasks[i].stage.until
    case Conclude(i) => i in s.tasks && s.tasks[i].stage.Attempting?
    case Finish(i, _) => i in s.tasks && s.tasks[i].stage.Concluded? && i < |s.claims|
  }

  function Polled(s: Scheduler, actors: seq<ActorId>): Scheduler
    requires forall a | a in actors :: a in s.store
  {
    SelectionIsDue(s.store, actors, s.now, s.now - QUEUED_TIMEOUT, s.available);
    var selected := Selected(s.store, actors, s.now, s.now - QUEUED_TIMEOUT, s.available);
    var claimed := ClaimsOf(s.store, selected, s.now);
    s.(store := Marked(s.store, selected, s.now), claims := s.claims + claimed,
       queue := seq(|claimed|, i => |s.claims| + i))
  }

  ghost function Next(s: Scheduler, e: Event, lag: nat): Scheduler
    requires Enabled(s, e, lag)
  {
    match e
    case Pass(elapsed) => s.(now := s.now + elapsed)
    case Schedule(actor, timestamp) =>
      var updated := Updated(s.store, actor, timestamp);
      if updated.Some? then s.(store := updated.value) else s
    case Poll(actors) => Polled(s, actors)
    case Spawn =>
      s.(queue := s.queue[1..], tasks := s.tasks[s.queue[0] := Task(s.now, Attempting(1, s.now))],
         available := if s.available > 0 then s.available - 1 else 0)
    case Fail(i, jitter) =>
      var attempt := s.tasks[i].stage.attempt;
      Staged(s, i, Pausing(attempt, s.now + Pause(attempt) + jitter))
    case Retry(i) => Staged(s, i, Attempting(s.tasks[i].stage.attempt + 1, s.now))
    case Conclude(i) => Staged(s, i, Concluded)
    case Finish(i, recorded) =>
      s.(store := if recorded then Finished(s.store, s.claims[i]) else s.store,
         tasks := s.tasks - {i}, available := s.available + 1)
  }

  function Staged(s: Scheduler, i: nat, stage: Stage): Scheduler
    requires i in s.tasks
  {
    s.(tasks := s.tasks[i := s.tasks[i].(stage := stage)])
  }

  ghost function After(events: seq<Event>, lag: nat): Scheduler
    decreases |events|
  {
    if events == [] then Initial
    else
      var s, e := After(events[..|events| - 1], lag), events[|events| - 1];
      if Enabled(s, e, lag) then Next(s, e, lag) else s
  }

  // ----- invariants -----

  ghost predicate Slotted(s: Scheduler) {
    && s.available + |s.tasks| == MAX_IN_FLIGHT
    && |s.queue| <= s.available && |s.queue| <= |s.claims|
    && (forall k | 0 <= k < |s.queue| :: s.queue[k] == |s.claims| - |s.queue| + k)
    && (forall i | i in s.tasks :: i < |s.claims| - |s.queue|)
  }

  /** While a claimed schedule is still pending, the store remembers a claim at least as late. */
  ghost predicate Remembered(s: Scheduler, c: Claim) {
    && c.at <= s.now && c.actor in s.store && c.revision <= s.store[c.actor].revision
    && (c.revision == s.store[c.actor].revision && s.store[c.actor].timestamp.Some? ==>
          s.store[c.actor].queuedAt.Some? && c.at <= s.store[c.actor].queuedAt.value)
  }

  ghost predicate Spaced(claims: seq<Claim>) {
    forall i, j | 0 <= i < j < |claims| &&
      claims[i].actor == claims[j].actor && claims[i].revision == claims[j].revision ::
      claims[i].at + QUEUED_TIMEOUT <= claims[j].at
  }

  ghost predicate Inv(s: Scheduler) {
    && Slotted(s) && Spaced(s.claims)
    && forall i | 0 <= i < |s.claims| :: Remembered(s, s.claims[i])
  }

  lemma {:induction false} DueOnce(store: Store, actors: seq<ActorId>, now: int, expiredBefore: int, d: (int, ActorId))
    requires Distinct(actors)
    ensures multiset(DueAmong(store, actors, now, expiredBefore))[d] <= 1
    decreases |actors|
  {
    if actors != [] {
      var init, a := actors[..|actors| - 1], actors[|actors| - 1];
      DueOnce(store, init, now, expiredBefore, d);
      DueMembers(store, init, now, expiredBefore);
      if d.1 == a { assert a !in init; }
    }
  }

  lemma TwiceCounts<T>(s: seq<T>, i: nat, j: nat)
    requires i < j < |s| && s[i] == s[j]
    ensures multiset(s)[s[i]] >= 2
  {
    assert s == s[..j] + s[j..];
    assert s[..j][i] in s[..j] && s[j..][0] in s[j..];
  }

  lemma SelectedOnce(store: Store, actors: seq<ActorId>, now: int, expiredBefore: int, limit: nat, i: nat, j: nat)
    requires Distinct(actors)
    requires i < j < |Selected(store, actors, now, expiredBefore, limit)|
    ensures Selected(store, actors, now, expiredBefore, limit)[i].1 != Selected(store, actors, now, expiredBefore, limit)[j].1
  {
    var due := DueAmong(store, actors, now, expiredBefore);
    var sorted := Sort(due, ByTimestamp);
    var r := Selected(store, actors, now, expiredBefore, limit);
    SelectionIsDue(store, actors, now, expiredBefore, limit);
    SortSorts(due, ByTimestamp);
    DueOnce(store, actors, now, expiredBefore, r[i]);
    assert r[i] in r && r[j] in r;
    if sorted[i] == sorted[j] { TwiceCounts(sorted, i, j); }
  }

  lemma {:induction false} MarkedShape(store: Store, selected: seq<(int, ActorId)>, now: int)
    requires forall d | d in selected :: d.1 in store
    ensures var m := Marked(store, selected, now);
      && m.Keys == store.Keys
      && (forall a | a in store :: m[a].revision == store[a].revision && m[a].timestamp == store[a].timestamp)
      && (forall d | d in selected :: m[d.1].queuedAt == Some(now))
      && (forall a | a in store :: m[a].queuedAt == store[a].queuedAt || m[a].queuedAt == Some(now))
    decreases |selected|
  {
    if selected != [] {
      MarkedShape(store, selected[..|selected| - 1], now);
      assert selected == selected[..|selected| - 1] + [selected[|selected| - 1]];
    }
  }

  /** A deliverable claim of a revision already claimed comes when the earlier claim has expired. */
  lemma ReclaimWaits(s: Scheduler, actors: seq<ActorId>, c: Claim, d: (int, ActorId))
    requires Remembered(s, c) && forall a | a in actors :: a in s.store
    requires d in Selected(s.store, actors, s.now, s.now - QUEUED_TIMEOUT, s.available)
    requires d.1 in s.store && c.actor == d.1 && c.revision == s.store[d.1].revision
    ensures c.at + QUEUED_TIMEOUT <= s.now
  {
    SelectionIsDue(s.store, actors, s.now, s.now - QUEUED_TIMEOUT, s.available);
  }

  lemma PollKeepsSpacing(s: Scheduler, actors: seq<ActorId>)
    requires Inv(s) && Lists(actors, s.store)
    ensures Spaced(Polled(s, actors).claims)
  {
    hide Selected, Marked, Due, Slotted;
    var s' := Polled(s, actors);
    var n := |s.claims|;
    SelectionIsDue(s.store, actors, s.now, s.now - QUEUED_TIMEOUT, s.available);
    var selected := Selected(s.store, actors, s.now, s.now - QUEUED_TIMEOUT, s.available);
    forall i, j | 0 <= i < j < |s'.claims| &&
      s'.claims[i].actor == s'.claims[j].actor && s'.claims[i].revision == s'.claims[j].revision
      ensures s'.claims[i].at + QUEUED_TIMEOUT <= s'.claims[j].at
    {
      if j >= n {
        assert selected[j - n] in selected;
        if i < n {
          ReclaimWaits(s, actors, s.claims[i], selected[j - n]);
        } else {
          SelectedOnce(s.store, actors, s.now, s.now - QUEUED_TIMEOUT, s.available, i - n, j - n);
        }
      }
    }
  }

  lemma PollRemembers(s: Scheduler, actors: seq<ActorId>, i: nat)
    requires Inv(s) && Lists(actors, s.store) && i < |Polled(s, actors).claims|
    ensures Remembered(Polled(s, actors), Polled(s, actors).claims[i])
  {
    hide Selected, Marked, Due, Slotted, Spaced;
    SelectionIsDue(s.store, actors, s.now, s.now - QUEUED_TIMEOUT, s.available);
    var selected := Selected(s.store, actors, s.now, s.now - QUEUED_TIMEOUT, s.available);
    MarkedShape(s.store, selected, s.now);
    if i < |s.claims| {
      assert Remembered(s, s.claims[i]);
    } else {
      assert selected[i - |s.claims|] in selected;
    }
  }

  lemma PollKeepsInv(s: Scheduler, actors: seq<ActorId>)
    requires Inv(s) && s.queue == [] && Lists(actors, s.store)
    ensures Inv(Polled(s, actors))
  {
    hide Remembered, Marked, Selected;
    SelectionIsDue(s.store, actors, s.now, s.now - QUEUED_TIMEOUT, s.available);
    PollKeepsSpacing(s, actors);
    var s' := Polled(s, actors);
    forall i | 0 <= i < |s'.claims| ensures Remembered(s', s'.claims[i]) { PollRemembers(s, actors, i); }
  }

  /** A new store that still remembers every claim keeps the rest in place. */
  lemma StoreKeepsInv(s: Scheduler, store: Store)
    requires Inv(s)
    requires forall c | Remembered(s, c) :: Remembered(s.(store := store), c)
    ensures Inv(s.(store := store))
  {
  }

  lemma StageKeepsInv(s: Scheduler, i: nat, stage: Stage)
    requires Inv(s) && i in s.tasks
    ensures Inv(Staged(s, i, stage))
  {
    var s' := Staged(s, i, stage);
    assert s'.tasks.Keys == s.tasks.Keys;
    assert |s'.tasks| == |s'.tasks.Keys| == |s.tasks.Keys| == |s.tasks|;
    assert forall c | Remembered(s, c) :: Remembered(s', c);
  }

  lemma SpawnKeepsInv(s: Scheduler, lag: nat)
    requires Inv(s) && Enabled(s, Spawn, lag)
    ensures Inv(Next(s, Spawn, lag))
  {
    assert s.queue[0] !in s.tasks;
    assert forall c | Remembered(s, c) :: Remembered(Next(s, Spawn, lag), c);
  }

  lemma FinishKeepsInv(s: Scheduler, i: nat, recorded: bool, lag: nat)
    requires Inv(s) && Enabled(s, Finish(i, recorded), lag)
    ensures Inv(Next(s, Finish(i, recorded), lag))
  {
    assert |s.tasks - {i}| == |s.tasks| - 1 by { assert s.tasks == (s.tasks - {i})[i := s.tasks[i]]; }
    assert forall c | Remembered(s, c) :: Remembered(Next(s, Finish(i, recorded), lag), c);
  }

  lemma PassKeepsInv(s: Scheduler, elapsed: nat)
    requires Inv(s)
    ensures Inv(s.(now := s.now + elapsed))
  {
    assert forall c | Remembered(s, c) :: Remembered(s.(now := s.now + elapsed), c);
  }

  lemma StepKeepsInv(s: Scheduler, e: Event, lag: nat)
    requires Inv(s) && Enabled(s, e, lag)
    ensures Inv(Next(s, e, lag))
  {
    hide Inv, Remembered;
    match e
    case Pass(elapsed) => PassKeepsInv(s, elapsed);
    case Schedule(actor, timestamp) => ScheduleKeepsInv(s, actor, timestamp, lag);
    case Poll(actors) => PollKeepsInv(s, actors);
    case Spawn => SpawnKeepsInv(s, lag);
    case Fail(i, jitter) =>
      StageKeepsInv(s, i, Pausing(s.tasks[i].stage.attempt, s.now + Pause(s.tasks[i].stage.attempt) + jitter));
    case Retry(i) => StageKeepsInv(s, i, Attempting(s.tasks[i].stage.attempt + 1, s.now));
    case Conclude(i) => StageKeepsInv(s, i, Concluded);
    case Finish(i, recorded) => FinishKeepsInv(s, i, recorded, lag);
  }

  lemma ScheduleKeepsInv(s: Scheduler, actor: ActorId, timestamp: Option<int>, lag: nat)
    requires Inv(s)
    ensures Inv(Next(s, Schedule(actor, timestamp), lag))
  {
    var updated := Updated(s.store, actor, timestamp);
    if updated.Some? { StoreKeepsInv(s, updated.value); }
  }

  lemma {:induction false} RunKeepsInv(events: seq<Event>, lag: nat)
    ensures Inv(After(events, lag))
    decreases |events|
  {
    if events != [] {
      var s, e := After(events[..|events| - 1], lag), events[|events| - 1];
      RunKeepsInv(events[..|events| - 1], lag);
      if Enabled(s, e, lag) { StepKeepsInv(s, e, lag); }
    }
  }

  // ----- how long a delivery takes -----

  /** The latest, counted from its beginning, that a delivery enters its `n`-th attempt. */
  function Budget(attempt: nat): nat {
    if attempt <= 1 then 0 else Budget(attempt - 1) + ATTEMPT_TIMEOUT + 2 * Pause(attempt - 1)
  }

  /** What the cut-offs and pauses allow: 60 + 2 + 60 + 4 + 60 seconds. */
  const LONGEST: nat := 186_000

  ghost predicate Punctual(s: Scheduler, lag: nat, i: nat)
    requires i in s.tasks
  {
    var t := s.tasks[i];
    && i < |s.claims| && t.begun <= s.claims[i].at + lag && t.begun <= s.now
    && Within(t.stage, s.now)
    && (t.stage.Attempting? ==> 1 <= t.stage.attempt <= MAX_ATTEMPTS && t.stage.since <= t.begun + Budget(t.stage.attempt))
    && (t.stage.Pausing? ==> 1 <= t.stage.attempt < MAX_ATTEMPTS && t.stage.until <= t.begun + Budget(t.stage.attempt + 1))
  }

  lemma BudgetBounds(attempt: nat)
    requires 1 <= attempt <= MAX_ATTEMPTS
    ensures Budget(attempt) + ATTEMPT_TIMEOUT <= LONGEST
  {
    assert Budget(2) == 62_000 && Budget(3) == 126_000;
  }

  ghost predicate AllPunctual(s: Scheduler, lag: nat) {
    forall i | i in s.tasks :: Punctual(s, lag, i)
  }

  lemma StageIsPunctual(s: Scheduler, e: Event, lag: nat)
    requires (e.Fail? || e.Retry?) && Enabled(s, e, lag) && Punctual(s, lag, e.task)
    ensures Punctual(Next(s, e, lag), lag, e.task)
  {
  }

  lemma PollIsPunctual(s: Scheduler, e: Event, lag: nat, i: nat)
    requires e.Poll? && Enabled(s, e, lag) && i in Next(s, e, lag).tasks && AllPunctual(s, lag)
    ensures Punctual(Next(s, e, lag), lag, i)
  {
    hide Selected, Marked, Budget, Within;
    SelectionIsDue(s.store, e.actors, s.now, s.now - QUEUED_TIMEOUT, s.available);
    assert Punctual(s, lag, i);
  }

  lemma TaskIsPunctual(s: Scheduler, e: Event, lag: nat, i: nat)
    requires Slotted(s) && Enabled(s, e, lag) && AllPunctual(s, lag)
    requires i in Next(s, e, lag).tasks
    ensures Punctual(Next(s, e, lag), lag, i)
  {
    hide Polled, Pause, Updated, Finished;
    if e.Poll? {
      PollIsPunctual(s, e, lag, i);
    } else if i in s.tasks {
      assert Punctual(s, lag, i);
      if (e.Fail? || e.Retry?) && e.task == i { StageIsPunctual(s, e, lag); }
    }
  }

  lemma StepIsPunctual(s: Scheduler, e: Event, lag: nat)
    requires Slotted(s) && Enabled(s, e, lag) && AllPunctual(s, lag)
    ensures AllPunctual(Next(s, e, lag), lag)
  {
    hide Next, Enabled, Punctual, Slotted;
    forall i | i in Next(s, e, lag).tasks ensures Punctual(Next(s, e, lag), lag, i) {
      TaskIsPunctual(s, e, lag, i);
    }
  }

  lemma {:induction false} RunIsPunctual(events: seq<Event>, lag: nat)
    ensures AllPunctual(After(events, lag), lag)
    decreases |events|
  {
    if events != [] {
      var s, e := After(events[..|events| - 1], lag), events[|events| - 1];
      RunIsPunctual(events[..|events| - 1], lag);
      RunKeepsInv(events[..|events| - 1], lag);
      if Enabled(s, e, lag) { StepIsPunctual(s, e, lag); }
    }
  }

  // ----- what the loop promises -----

  /** Two claims of one schedule are at least the queue timeout apart. */
  lemma ClaimsAreSpaced(events: seq<Event>, lag: nat)
    ensures Spaced(After(events, lag).claims)
  {
    RunKeepsInv(events, lag);
  }

  /** At most the allotted number of deliveries hold a slot, and whenever a claimed alarm asks for one,
      one is free. */
  lemma SlotsSuffice(events: seq<Event>, lag: nat)
    ensures var s := After(events, lag);
      |s.tasks| <= MAX_IN_FLIGHT && (s.queue != [] ==> s.available > 0)
  {
    RunKeepsInv(events, lag);
  }

  /** In every run, a delivery still attempting or pausing began at most 186 seconds ago. */
  lemma DeliveriesConclude(events: seq<Event>, lag: nat, i: nat)
    requires i in After(events, lag).tasks && !After(events, lag).tasks[i].stage.Concluded?
    ensures var s := After(events, lag);
      && s.now <= s.tasks[i].begun + LONGEST
      && i < |s.claims| && s.now <= s.claims[i].at + lag + LONGEST
  {
    RunIsPunctual(events, lag);
    var s := After(events, lag);
    assert Punctual(s, lag, i);
    var attempt := s.tasks[i].stage.attempt;
    BudgetBounds(if s.tasks[i].stage.Pausing? then attempt + 1 else attempt);
  }

  ghost predicate SameClaim(s: Scheduler, i: nat, j: nat) {
    && i < j < |s.claims|
    && s.claims[i].actor == s.claims[j].actor && s.claims[i].revision == s.claims[j].revision
  }

  /** Two deliveries of the same schedule attempting at the same time. */
  ghost predicate Overlap(s: Scheduler) {
    exists i, j :: i in s.tasks && j in s.tasks && SameClaim(s, i, j)
                   && s.tasks[i].stage.Attempting? && s.tasks[j].stage.Attempting?
  }

  /** Deliveries that begin soon enough after their claim are never under way together: when a
      schedule is claimed again, every earlier delivery of it has concluded. */
  lemma DeliveriesNeverOverlap(events: seq<Event>, lag: nat, i: nat, j: nat)
    requires lag + LONGEST < QUEUED_TIMEOUT
    requires var s := After(events, lag); i in s.tasks && SameClaim(s, i, j)
    ensures After(events, lag).tasks[i].stage.Concluded?
  {
    RunKeepsInv(events, lag);
    var s := After(events, lag);
    assert Remembered(s, s.claims[j]);
    if !s.tasks[i].stage.Concluded? { DeliveriesConclude(events, lag, i); }
  }

  /** A run with a delivery that begins 114 seconds after its claim and uses all its time. */
  function LateRun(): seq<Event> {
    [Schedule(0, Some(0)), Poll([0]), Pass(114_000), Spawn,
     Pass(60_000), Fail(0, 1_000), Pass(2_000), Retry(0),
     Pass(60_000), Fail(0, 2_000), Pass(4_000), Retry(0),
     Pass(60_000), Poll([0]), Spawn]
  }

  lemma PollsOne(s: Scheduler)
    requires s.store.Keys == {0} && s.available > 0 && Due(s.store, 0, s.now, s.now - QUEUED_TIMEOUT)
    ensures Lists([0], s.store)
    ensures var revision := s.store[0].revision;
      Polled(s, [0]) == s.(
        store := map[0 := Alarm(revision, s.store[0].timestamp, Some(s.now))],
        claims := s.claims + [Claim(0, revision, s.now)], queue := [|s.claims|])
  {
    var actors: seq<ActorId> := [0];
    assert actors[..|actors| - 1] == [];
    var d: (int, ActorId) := (s.store[0].timestamp.value, 0);
    var due: seq<(int, ActorId)> := [d];
    assert DueAmong(s.store, actors, s.now, s.now - QUEUED_TIMEOUT) == due;
    assert Sort(due, ByTimestamp) == due by { assert due[..0] == []; }
    var selected := Selected(s.store, actors, s.now, s.now - QUEUED_TIMEOUT, s.available);
    assert selected == [d];
    assert selected[..0] == [];
    assert Marked(s.store, selected, s.now) == map[0 := s.store[0].(queuedAt := Some(s.now))];
  }

  lemma {:induction false} AfterExtends(events: seq<Event>, e: Event, lag: nat)
    ensures After(events + [e], lag)
         == if Enabled(After(events, lag), e, lag) then Next(After(events, lag), e, lag) else After(events, lag)
  {
    assert (events + [e])[..|events + [e]| - 1] == events;
  }

  /** Where the late run stands after `n` events. */
  function LateWaiting(): Scheduler {
    Initial.(store := map[0 := Alarm(1, Some(0), Some(0))], claims := [Claim(0, 1, 0)], queue := [0])
  }

  function LateState(n: nat): Scheduler {
    var waiting := LateWaiting();
    if n == 0 then Initial
    else if n == 1 then Initial.(store := map[0 := Alarm(1, Some(0), None)])
    else if n == 2 then waiting
    else if n == 3 then waiting.(now := 114_000)
    else if n == 4 then LateTask(waiting, 114_000, Attempting(1, 114_000))
    else if n == 5 then LateTask(waiting, 174_000, Attempting(1, 114_000))
    else if n == 6 then LateTask(waiting, 174_000, Pausing(1, 176_000))
    else if n == 7 then LateTask(waiting, 176_000, Pausing(1, 176_000))
    else if n == 8 then LateTask(waiting, 176_000, Attempting(2, 176_000))
    else if n == 9 then LateTask(waiting, 236_000, Attempting(2, 176_000))
    else if n == 10 then LateTask(waiting, 236_000, Pausing(2, 240_000))
    else if n == 11 then LateTask(waiting, 240_000, Pausing(2, 240_000))
    else if n == 12 then LateTask(waiting, 240_000, Attempting(3, 240_000))
    else if n == 13 then LateTask(waiting, 300_000, Attempting(3, 240_000))
    else
      var reclaimed := LateTask(waiting, 300_000, Attempting(3, 240_000)).(
        store := map[0 := Alarm(1, Some(0), Some(300_000))],
        claims := [Claim(0, 1, 0), Claim(0, 1, 300_000)], queue := [1]);
      if n == 14 then reclaimed
      else reclaimed.(queue := [], available := 98,
                      tasks := reclaimed.tasks[1 := Task(300_000, Attempting(1, 300_000))])
  }

  function LateTask(waiting: Scheduler, now: nat, stage: Stage): Scheduler {
    waiting.(now := now, queue := [], available := 99, tasks := map[0 := Task(114_000, stage)])
  }

  /** While the first delivery runs, only it moves. */
  lemma LatePasses(waiting: Scheduler, now: nat, stage: Stage, elapsed: nat, lag: nat)
    requires Within(stage, now + elapsed)
    ensures var s := LateTask(waiting, now, stage);
      Enabled(s, Pass(elapsed), lag) && Next(s, Pass(elapsed), lag) == LateTask(waiting, now + elapsed, stage)
  {
  }

  lemma LateFails(waiting: Scheduler, now: nat, attempt: nat, since: nat, lag: nat)
    requires attempt < MAX_ATTEMPTS
    ensures var s, e := LateTask(waiting, now, Attempting(attempt, since)), Fail(0, Pause(attempt));
      && Enabled(s, e, lag)
      && Next(s, e, lag) == LateTask(waiting, now, Pausing(attempt, now + 2 * Pause(attempt)))
  {
  }

  lemma LateRetries(waiting: Scheduler, now: nat, attempt: nat, lag: nat)
    ensures var s := LateTask(waiting, now, Pausing(attempt, now));
      && Enabled(s, Retry(0), lag)
      && Next(s, Retry(0), lag) == LateTask(waiting, now, Attempting(attempt + 1, now))
  {
  }

  lemma LateBegins(n: nat, lag: nat)
    requires n < 4 && lag >= 114_000
    ensures Enabled(LateState(n), LateRun()[n], lag)
    ensures Next(LateState(n), LateRun()[n], lag) == LateState(n + 1)
  {
    if n == 1 { PollsOne(LateState(n)); }
    hide Polled, Lists;
  }

  lemma LateDelivers(n: nat, lag: nat)
    requires 4 <= n < 13
    ensures Enabled(LateState(n), LateRun()[n], lag)
    ensures Next(LateState(n), LateRun()[n], lag) == LateState(n + 1)
  {
    assert Pause(1) == 1_000 && Pause(2) == 2_000;
    hide Enabled, Next, LateTask, Pause;
    var w := LateWaiting();
    if n == 4 { LatePasses(w, 114_000, Attempting(1, 114_000), 60_000, lag);
    } else if n == 5 { LateFails(w, 174_000, 1, 114_000, lag);
    } else if n == 6 { LatePasses(w, 174_000, Pausing(1, 176_000), 2_000, lag);
    } else if n == 7 { LateRetries(w, 176_000, 1, lag);
    } else if n == 8 { LatePasses(w, 176_000, Attempting(2, 176_000), 60_000, lag);
    } else if n == 9 { LateFails(w, 236_000, 2, 176_000, lag);
    } else if n == 10 { LatePasses(w, 236_000, Pausing(2, 240_000), 4_000, lag);
    } else if n == 11 { LateRetries(w, 240_000, 2, lag);
    } else { LatePasses(w, 240_000, Attempting(3, 240_000), 60_000, lag); }
  }

  lemma LateClaims(lag: nat)
    ensures Enabled(LateState(13), Poll([0]), lag) && Next(LateState(13), Poll([0]), lag) == LateState(14)
  {
    PollsOne(LateState(13));
    hide Polled, Lists;
    assert LateState(13).claims + [Claim(0, 1, 300_000)] == LateState(14).claims;
  }

  lemma LateSpawns(lag: nat)
    ensures Enabled(LateState(14), Spawn, lag) && Next(LateState(14), Spawn, lag) == LateState(15)
  {
    assert LateState(14).queue[1..] == [];
  }

  lemma LateReclaims(n: nat, lag: nat)
    requires 13 <= n < 15
    ensures Enabled(LateState(n), LateRun()[n], lag)
    ensures Next(LateState(n), LateRun()[n], lag) == LateState(n + 1)
  {
    hide Enabled, Next, LateState;
    if n == 13 { LateClaims(lag); } else { LateSpawns(lag); }
  }

  lemma LateStep(n: nat, lag: nat)
    requires n < 15 && lag >= 114_000
    ensures Enabled(LateState(n), LateRun()[n], lag)
    ensures Next(LateState(n), LateRun()[n], lag) == LateState(n + 1)
  {
    hide Enabled, Next, LateState;
    if n < 4 {
      LateBegins(n, lag);
    } else if n < 13 {
      LateDelivers(n, lag);
    } else {
      LateReclaims(n, lag);
    }
  }

  lemma {:induction false} LateRunReaches(n: nat, lag: nat)
    requires n <= 15 && lag >= 114_000
    ensures After(LateRun()[..n], lag) == LateState(n)
    decreases n
  {
    hide Next, Enabled, LateState;
    if n == 0 {
      LateStart();
    } else {
      LateRunReaches(n - 1, lag);
      LateStep(n - 1, lag);
      AfterExtends(LateRun()[..n - 1], LateRun()[n - 1], lag);
      assert LateRun()[..n] == LateRun()[..n - 1] + [LateRun()[n - 1]];
    }
  }

  lemma LateStart()
    ensures LateState(0) == Initial
  {
  }

  ghost predicate Exclusive(events: seq<Event>, lag: nat) {
    !Overlap(After(events, lag))
  }

  lemma AttemptsNeverOverlap(events: seq<Event>, lag: nat)
    requires lag < 114_000
    ensures Exclusive(events, lag)
  {
    var s := After(events, lag);
    forall i, j | i in s.tasks && j in s.tasks && SameClaim(s, i, j) ensures s.tasks[i].stage.Concluded? {
      DeliveriesNeverOverlap(events, lag, i, j);
    }
  }

  lemma LateRunOverlaps(lag: nat)
    requires lag >= 114_000
    ensures !Exclusive(LateRun(), lag)
  {
    LateRunReaches(15, lag);
    assert LateRun()[..15] == LateRun();
    var s := LateState(15);
    assert 0 in s.tasks && 1 in s.tasks && SameClaim(s, 0, 1);
  }

  /** Attempts of one schedule never overlap, in any run, exactly when every delivery begins less than
      114 seconds after its claim. */
  lemma ExclusiveExactly(lag: nat)
    ensures (forall events :: Exclusive(events, lag)) <==> lag < 114_000
  {
    if lag < 114_000 {
      forall events ensures Exclusive(events, lag) { AttemptsNeverOverlap(events, lag); }
    } else {
      LateRunOverlaps(lag);
    }
  }

  /** A schedule stays as it was set for as long as nobody sets another and no delivery of this very
      schedule finishes, whatever deliveries of earlier schedules do. */
  ghost predicate Touches(s: Scheduler, e: Event, actor: ActorId, revision: nat) {
    || (e.Schedule? && e.actor == actor)
    || (e.Finish? && e.task < |s.claims| && s.claims[e.task].actor == actor && s.claims[e.task].revision == revision)
  }

  ghost predicate Undisturbed(events: seq<Event>, more: seq<Event>, lag: nat, actor: ActorId, revision: nat) {
    forall i | 0 <= i < |more| :: !Touches(After(events + more[..i], lag), more[i], actor, revision)
  }

  predicate SameSchedule(a: Store, b: Store, actor: ActorId) {
    actor in a && actor in b && a[actor].revision == b[actor].revision && a[actor].timestamp == b[actor].timestamp
  }

  lemma ScheduleSurvivesStep(s: Scheduler, e: Event, lag: nat, actor: ActorId)
    requires actor in s.store && Enabled(s, e, lag) && !Touches(s, e, actor, s.store[actor].revision)
    ensures SameSchedule(s.store, Next(s, e, lag).store, actor)
  {
    if e.Poll? {
      SelectionIsDue(s.store, e.actors, s.now, s.now - QUEUED_TIMEOUT, s.available);
      MarkedShape(s.store, Selected(s.store, e.actors, s.now, s.now - QUEUED_TIMEOUT, s.available), s.now);
    }
  }

  lemma UndisturbedInit(events: seq<Event>, more: seq<Event>, lag: nat, actor: ActorId, revision: nat)
    requires more != [] && Undisturbed(events, more, lag, actor, revision)
    ensures var init, e := more[..|more| - 1], more[|more| - 1];
      && Undisturbed(events, init, lag, actor, revision)
      && !Touches(After(events + init, lag), e, actor, revision)
  {
    hide After, Touches;
    var init := more[..|more| - 1];
    assert forall i | 0 <= i < |init| :: init[..i] == more[..i];
  }

  lemma {:induction false} SchedulesSurvive(events: seq<Event>, more: seq<Event>, lag: nat, actor: ActorId)
    requires actor in After(events, lag).store
    requires Undisturbed(events, more, lag, actor, After(events, lag).store[actor].revision)
    ensures SameSchedule(After(events, lag).store, After(events + more, lag).store, actor)
    decreases |more|
  {
    hide Next, Enabled, Touches, After, Undisturbed;
    if more == [] {
      assert events + more == events;
    } else {
      var init, e := more[..|more| - 1], more[|more| - 1];
      UndisturbedInit(events, more, lag, actor, After(events, lag).store[actor].revision);
      SchedulesSurvive(events, init, lag, actor);
      AfterExtends(events + init, e, lag);
      assert events + more == events + init + [e];
      var s := After(events + init, lag);
      if Enabled(s, e, lag) { ScheduleSurvivesStep(s, e, lag, actor); }
    }
  }
}
