/** When sessions are ended by estimate, what is published at all, and that every run can come to rest. */
module Reconciliation {
  import opened Actors
  import opened Wrappers
  import opened Usage

  // ----- which sessions a reconciliation picks -----

  /** The session still runs as far as is known, and was last heard of 35 seconds ago or earlier. */
  predicate Silent(sessions: Sessions, key: SessionKey, now: nat) {
    && key in sessions && !sessions[key].estimated && !sessions[key].report.kind.Stopped?
    && sessions[key].report.received + 35_000 <= now
  }

  /** A reconciliation picks only silent sessions, and all of those listed unless it picks a full batch. */
  lemma {:induction false} ExpiringExactly(sessions: Sessions, order: seq<SessionKey>, now: nat, key: SessionKey)
    ensures var keys := Expiring(sessions, order, now);
      && |keys| <= BATCH_SIZE
      && (key in keys ==> key in order && Silent(sessions, key, now))
      && (key in order && Silent(sessions, key, now) && key !in keys ==> |keys| == BATCH_SIZE)
    decreases |order|
  {
    if order != [] {
      ExpiringExactly(sessions, order[..|order| - 1], now, key);
      assert order == order[..|order| - 1] + [order[|order| - 1]];
    }
  }

  // ----- estimates follow silence -----

  /** The i-th move of the run estimates the end of the session: it is reconciled while silent. */
  ghost predicate EstimatesAt(events: seq<Event>, i: int, u: Update) {
    && 0 <= i < |events| && events[i].Reconcile?
    && var sessions, key, now := After(events[..i]).sessions, u.report.session, events[i].now;
       && key in events[i].order && Silent(sessions, key, now)
       && u == Update(sessions[key].report.(kind := Stopped, received := now),
                      2 * sessions[key].report.sequence + 1, Some(sessions[key].report.occurred), true)
  }

  lemma ReconcileEstimates(w: World, order: seq<SessionKey>, now: nat, u: Update)
    requires Inv(w) && u in Sent(Next(w, Reconcile(order, now))) && u !in Sent(w)
    ensures var key := u.report.session;
      && key in order && Silent(w.sessions, key, now)
      && u == Update(w.sessions[key].report.(kind := Stopped, received := now),
                     2 * w.sessions[key].report.sequence + 1, Some(w.sessions[key].report.occurred), true)
  {
    hide Legit, Expiring, PlainUpdates, EstimatedUpdates, BoundariesSent, EstimatesSent, EstimatedOnce;
    var keys := Expiring(w.sessions, order, now);
    var k :| k in keys && k in w.sessions && u == EstimatedStop(w.sessions[k].report, now);
    ExpiringExactly(w.sessions, order, now, k);
  }

  lemma OthersSendPlain(w: World, e: Event, u: Update)
    requires Enabled(w, e) && !e.Reconcile? && u in Sent(Next(w, e)) && u !in Sent(w)
    ensures !u.estimated
  {
    hide Legit;
  }

  /** Every estimate ever sent was made of a session silent at the time. */
  lemma {:induction false} EstimatesFollowSilence(events: seq<Event>, u: Update) returns (i: int)
    requires u in Sent(After(events)) && u.estimated
    ensures EstimatesAt(events, i, u)
    decreases |events|
  {
    hide Next, Enabled, Inv, Silent;
    var init, e := events[..|events| - 1], events[|events| - 1];
    assert events[..|init|] == init;
    RunKeepsInv(init);
    if u in Sent(After(init)) {
      i := EstimatesFollowSilence(init, u);
      assert init[..i] == events[..i];
    } else {
      i := |init|;
      if e.Reconcile? {
        ReconcileEstimates(After(init), e.order, e.now, u);
      } else {
        OthersSendPlain(After(init), e, u);
      }
    }
  }

  // ----- heartbeats are only sent as corrections -----

  ghost predicate Justified(w: World, u: Update) {
    || u.estimated || Boundary(u.report)
    || exists v :: v in Sent(w) && v.estimated && v.report.session == u.report.session
                   && v.report.sequence < u.report.sequence
  }

  lemma ObserveJustifies(w: World, r: Report)
    requires Inv(w) && r in w.inFlight && Corrects(w.sessions, r)
    ensures Justified(w, UpdateOf(r))
  {
    assert HasEstimate(w, r.session, w.sessions[r.session].report.sequence);
  }

  lemma JustifiedStays(w: World, w': World, u: Update)
    requires Justified(w, u) && Sent(w) <= Sent(w')
    ensures Justified(w', u)
  {
  }

  lemma SentGrows(w: World, e: Event)
    requires Enabled(w, e)
    ensures Sent(w) <= Sent(Next(w, e))
  {
    hide Legit;
  }

  lemma StepJustifies(w: World, e: Event, u: Update)
    requires Inv(w) && Enabled(w, e) && u in Sent(Next(w, e)) && u !in Sent(w)
    ensures Justified(Next(w, e), u)
  {
    SentGrows(w, e);
    match e
    case Reconcile(order, now) => ReconcileEstimates(w, order, now, u);
    case Observe(r) =>
      if Corrects(w.sessions, r) {
        ObserveJustifies(w, r);
        hide Inv;
        JustifiedStays(w, Next(w, e), UpdateOf(r));
      }
    case Record(_) =>
    case Publish(_) =>
  }

  /** What is sent starts or stops a session, estimates its end, or corrects an estimate sent before. */
  lemma {:induction false} OnlyNewsIsSent(events: seq<Event>, u: Update)
    requires u in Sent(After(events))
    ensures Justified(After(events), u)
    decreases |events|
  {
    hide Next, Enabled, Inv, Justified;
    var init, e := events[..|events| - 1], events[|events| - 1];
    RunKeepsInv(init);
    if Enabled(After(init), e) { SentGrows(After(init), e); }
    if u in Sent(After(init)) {
      OnlyNewsIsSent(init, u);
      JustifiedStays(After(init), After(events), u);
    } else {
      StepJustifies(After(init), e, u);
    }
  }

  // ----- every run can come to rest -----

  lemma AfterOne(events: seq<Event>, e: Event)
    requires Enabled(After(events), e)
    ensures After(events + [e]) == Next(After(events), e)
  {
    hide Next, Enabled;
    assert (events + [e])[..|events + [e]| - 1] == events;
  }

  ghost predicate Rests(events: seq<Event>) {
    After(events).inFlight == {} && After(events).outgoing == {}
  }

  lemma {:induction false} PublishingRests(events: seq<Event>) returns (more: seq<Event>)
    requires After(events).inFlight == {}
    ensures Rests(events + more) && After(events + more).sessions == After(events).sessions
    decreases |After(events).outgoing|
  {
    var w := After(events);
    if w.outgoing == {} {
      more := [];
      assert events + more == events;
    } else {
      var u :| u in w.outgoing;
      AfterOne(events, Publish(u));
      assert Next(w, Publish(u)).outgoing < w.outgoing;
      hide After;
      var rest := PublishingRests(events + [Publish(u)]);
      more := [Publish(u)] + rest;
      assert events + [Publish(u)] + rest == events + more;
    }
  }

  /** Whatever is under way can be brought to an end, by which the convergence of revisions applies. */
  lemma {:induction false} EveryRunCanRest(events: seq<Event>) returns (more: seq<Event>)
    ensures Rests(events + more)
    decreases |After(events).inFlight|
  {
    var w := After(events);
    if w.inFlight == {} {
      more := PublishingRests(events);
    } else {
      var r :| r in w.inFlight;
      AfterOne(events, Observe(r));
      assert Next(w, Observe(r)).inFlight < w.inFlight;
      hide After;
      var rest := EveryRunCanRest(events + [Observe(r)]);
      more := [Observe(r)] + rest;
      assert events + [Observe(r)] + rest == events + more;
    }
  }
}
