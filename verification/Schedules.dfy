/** What becomes of a schedule: it takes effect when set, is claimed when due, comes back when its
    delivery was not recorded, and never again once it was. */
module Schedules {
  import opened Actors
  import opened Wrappers
  import opened Sorting
  import opened Alarms

  /** A schedule takes effect at once, unclaimed and under a new revision, unless its revisions have run
      out; other alarms are not touched. */
  lemma ScheduleTakesEffect(s: Scheduler, actor: ActorId, timestamp: Option<int>, lag: nat, other: ActorId)
    requires other != actor
    ensures var store := Next(s, Schedule(actor, timestamp), lag).store;
      && (other in store <==> other in s.store) && (other in store ==> store[other] == s.store[other])
      && actor in store
      && (if actor in s.store && s.store[actor].revision >= U64_MAX then store[actor] == s.store[actor]
          else
            && TimestampOf(store, actor) == timestamp && store[actor].queuedAt.None?
            && store[actor].revision > (if actor in s.store then s.store[actor].revision else 0))
  {
  }

  // ----- deliveries that were recorded are not repeated -----

  /** The revision has been delivered or replaced. */
  ghost predicate Over(s: Scheduler, actor: ActorId, revision: nat) {
    && actor in s.store && revision <= s.store[actor].revision
    && (s.store[actor].revision == revision ==> s.store[actor].timestamp.None?)
  }

  ghost predicate Of(c: Claim, actor: ActorId, revision: nat) {
    c.actor == actor && c.revision == revision
  }

  lemma StepStaysOver(s: Scheduler, e: Event, lag: nat, actor: ActorId, revision: nat)
    requires Enabled(s, e, lag) && Over(s, actor, revision)
    ensures Over(Next(s, e, lag), actor, revision)
    ensures var s' := Next(s, e, lag);
      && |s.claims| <= |s'.claims|
      && forall i | |s.claims| <= i < |s'.claims| :: !Of(s'.claims[i], actor, revision)
  {
    if e.Poll? {
      var selected := Selected(s.store, e.actors, s.now, s.now - QUEUED_TIMEOUT, s.available);
      SelectionIsDue(s.store, e.actors, s.now, s.now - QUEUED_TIMEOUT, s.available);
      MarkedShape(s.store, selected, s.now);
      hide Selected, Marked;
      var s' := Next(s, e, lag);
      forall i | |s.claims| <= i < |s'.claims| ensures !Of(s'.claims[i], actor, revision) {
        assert selected[i - |s.claims|] in selected;
      }
    }
  }

  lemma {:induction false} RunStaysOver(events: seq<Event>, more: seq<Event>, lag: nat, actor: ActorId, revision: nat)
    requires Over(After(events, lag), actor, revision)
    ensures var s, s' := After(events, lag), After(events + more, lag);
      && Over(s', actor, revision) && |s.claims| <= |s'.claims|
      && forall i | |s.claims| <= i < |s'.claims| :: !Of(s'.claims[i], actor, revision)
    decreases |more|
  {
    hide Next, Enabled, After, Over, Of;
    if more == [] {
      assert events + more == events;
    } else {
      var init, e := more[..|more| - 1], more[|more| - 1];
      RunStaysOver(events, init, lag, actor, revision);
      AfterExtends(events + init, e, lag);
      assert events + more == events + init + [e];
      var s := After(events + init, lag);
      if Enabled(s, e, lag) {
        StepStaysOver(s, e, lag, actor, revision);
        ClaimsGrow(s, e, lag);
      }
    }
  }

  lemma ClaimsGrow(s: Scheduler, e: Event, lag: nat)
    requires Enabled(s, e, lag)
    ensures s.claims <= Next(s, e, lag).claims
  {
    hide Selected, Marked;
  }

  /** Once a delivery of the current revision is recorded, no later poll claims that revision again. */
  lemma RecordedNeverRepeats(events: seq<Event>, i: nat, more: seq<Event>, lag: nat)
    requires Enabled(After(events, lag), Finish(i, true), lag)
    requires var s := After(events, lag);
      s.claims[i].actor in s.store && s.store[s.claims[i].actor].revision == s.claims[i].revision
    ensures var s, s' := After(events, lag), After(events + [Finish(i, true)] + more, lag);
      && |s.claims| <= |s'.claims|
      && forall j | |s.claims| <= j < |s'.claims| :: !Of(s'.claims[j], s.claims[i].actor, s.claims[i].revision)
  {
    var s, e := After(events, lag), Finish(i, true);
    AfterExtends(events, e, lag);
    assert Over(Next(s, e, lag), s.claims[i].actor, s.claims[i].revision);
    hide After, Enabled, Next;
    RunStaysOver(events + [e], more, lag, s.claims[i].actor, s.claims[i].revision);
  }

  // ----- what is due is claimed -----

  /** The alarm's time has come, and it was not claimed within the last five minutes. */
  predicate Ripe(s: Scheduler, actor: ActorId) {
    && actor in s.store && s.store[actor].timestamp.Some? && s.store[actor].timestamp.value <= s.now
    && (s.store[actor].queuedAt.Some? ==> s.store[actor].queuedAt.value + QUEUED_TIMEOUT <= s.now)
  }

  ghost predicate Claims(s: Scheduler, s': Scheduler, actor: ActorId) {
    exists i | |s.claims| <= i < |s'.claims| ::
      actor in s.store && s'.claims[i] == Claim(actor, s.store[actor].revision, s.now)
  }

  function Chosen(s: Scheduler, actors: seq<ActorId>): seq<(int, ActorId)> {
    Selected(s.store, actors, s.now, s.now - QUEUED_TIMEOUT, s.available)
  }

  lemma PollShape(s: Scheduler, actors: seq<ActorId>, lag: nat)
    requires Enabled(s, Poll(actors), lag)
    ensures var s', chosen := Next(s, Poll(actors), lag), Chosen(s, actors);
      && |s'.claims| == |s.claims| + |chosen| && s.claims <= s'.claims
      && |s'.queue| == |chosen| && (forall j | 0 <= j < |chosen| :: s'.queue[j] == |s.claims| + j)
      && forall i | |s.claims| <= i < |s'.claims| :: Answers(s, s'.claims[i], chosen[i - |s.claims|])
  {
    SelectionIsDue(s.store, actors, s.now, s.now - QUEUED_TIMEOUT, s.available);
    hide Selected, Marked;
    var chosen := Chosen(s, actors);
    assert forall i | 0 <= i < |chosen| :: chosen[i] in chosen;
  }

  /** The claim is for the chosen alarm, which is ripe. */
  predicate Answers(s: Scheduler, c: Claim, chosen: (int, ActorId)) {
    && Ripe(s, chosen.1) && chosen.0 == s.store[chosen.1].timestamp.value
    && c == Claim(chosen.1, s.store[chosen.1].revision, s.now)
  }

  lemma RipeIsDue(s: Scheduler, actors: seq<ActorId>, lag: nat, actor: ActorId)
    requires Enabled(s, Poll(actors), lag) && Ripe(s, actor)
    ensures var chosen := Chosen(s, actors);
      (s.store[actor].timestamp.value, actor) !in chosen ==>
        |chosen| == s.available && forall d | d in chosen :: d.0 <= s.store[actor].timestamp.value
  {
    SelectionIsEarliest(s.store, actors, s.now, s.now - QUEUED_TIMEOUT, s.available);
    hide Selected;
  }

  /** A poll claims nothing but ripe alarms, and all of them unless it fills every free slot, in which
      case those left out are no earlier than those claimed. */
  lemma PollClaimsExactly(s: Scheduler, actors: seq<ActorId>, lag: nat, actor: ActorId)
    requires Enabled(s, Poll(actors), lag)
    ensures var s' := Next(s, Poll(actors), lag);
      && (Claims(s, s', actor) ==> Ripe(s, actor))
      && (Ripe(s, actor) && !Claims(s, s', actor) ==>
            && |s'.claims| == |s.claims| + s.available
            && forall i | |s.claims| <= i < |s'.claims| ::
                 var a := s'.claims[i].actor;
                 Ripe(s, a) && s.store[a].timestamp.value <= s.store[actor].timestamp.value)
      && |s'.queue| == |s'.claims| - |s.claims| && (forall j | 0 <= j < |s'.queue| :: s'.queue[j] == |s.claims| + j)
  {
    var s', chosen := Next(s, Poll(actors), lag), Chosen(s, actors);
    PollShape(s, actors, lag);
    hide Chosen, Next, Enabled;
    if Ripe(s, actor) {
      RipeIsDue(s, actors, lag, actor);
      var d := (s.store[actor].timestamp.value, actor);
      if d in chosen {
        var j :| 0 <= j < |chosen| && chosen[j] == d;
        var i := |s.claims| + j;
        assert Answers(s, s'.claims[i], chosen[i - |s.claims|]);
      } else {
        assert forall i | 0 <= i < |chosen| :: chosen[i] in chosen;
      }
    }
  }
}
