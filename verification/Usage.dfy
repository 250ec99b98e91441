/** Usage accounting: reports of host sessions become numbered updates, silent sessions are ended by
    estimate, and a later report corrects the estimate. */
module Usage {
  import opened Actors
  import opened Wrappers

  const BATCH_SIZE: nat := 128
  const SEQUENCE_LIMIT: nat := 0x10_0000_0000_0000

  /** A host session; sessions are only ever compared. */
  type SessionKey = nat

  datatype Kind = Started | Heartbeat | Draining | Stopped

  datatype Report = Report(session: SessionKey, sequence: nat, kind: Kind, occurred: nat, received: nat)

  datatype Session = Session(report: Report, estimated: bool)

  datatype Update = Update(report: Report, revision: nat, ended: Option<nat>, estimated: bool)

  function UpdateOf(r: Report): Update {
    Update(r, 2 * r.sequence, if r.kind.Stopped? then Some(r.occurred) else None, false)
  }

  function EstimatedStop(r: Report, now: nat): Update {
    var u := UpdateOf(r.(kind := Stopped, received := now));
    u.(revision := u.revision + 1, estimated := true)
  }

  predicate Boundary(r: Report) {
    r.kind.Started? || r.kind.Stopped?
  }

  // ----- tracked sessions -----

  type Sessions = map<SessionKey, Session>

  predicate Ignored(sessions: Sessions, r: Report) {
    && r.session in sessions
    && (r.sequence <= sessions[r.session].report.sequence || sessions[r.session].report.kind.Stopped?)
  }

  function Observed(sessions: Sessions, r: Report): Sessions {
    if Ignored(sessions, r) then sessions else sessions[r.session := Session(r, false)]
  }

  predicate Corrects(sessions: Sessions, r: Report) {
    !Ignored(sessions, r) && r.session in sessions && sessions[r.session].estimated
  }

  predicate Stale(sessions: Sessions, key: SessionKey, now: nat) {
    && key in sessions && !sessions[key].estimated && !sessions[key].report.kind.Stopped?
    && now >= sessions[key].report.received + STALE_AFTER
  }

  /** The stale sessions among the first `n` listed, up to a batch. */
  function Expiring(sessions: Sessions, order: seq<SessionKey>, now: nat): seq<SessionKey> {
    if order == [] then []
    else
      var before, key := Expiring(sessions, order[..|order| - 1], now), order[|order| - 1];
      if |before| < BATCH_SIZE && Stale(sessions, key, now) then before + [key] else before
  }

  function Expired(sessions: Sessions, keys: seq<SessionKey>): Sessions {
    map k | k in sessions :: if k in keys then sessions[k].(estimated := true) else sessions[k]
  }

  class MemoryUsageSessions {
    var sessions: Sessions

    constructor ()
      ensures sessions == map[]
    {
      sessions := map[];
    }

    method Observe(r: Report) returns (corrected: bool)
      modifies this
      ensures sessions == Observed(old(sessions), r)
      ensures corrected == Corrects(old(sessions), r)
    {
      if r.session in sessions {
        var previous := sessions[r.session];
        if r.sequence <= previous.report.sequence || previous.report.kind.Stopped? { return false; }
        corrected := previous.estimated;
      } else {
        corrected := false;
      }
      sessions := sessions[r.session := Session(r, false)];
    }

    /** `order` is the order in which the table happens to list its sessions. */
    method Expire(order: seq<SessionKey>, now: nat) returns (expired: seq<Report>)
      requires Distinct(order)
      modifies this
      ensures var keys := Expiring(old(sessions), order, now);
        && sessions == Expired(old(sessions), keys)
        && |expired| == |keys|
        && forall i | 0 <= i < |keys| :: keys[i] in old(sessions) && expired[i] == old(sessions)[keys[i]].report
    {
      expired := [];
      ghost var keys: seq<SessionKey> := [];
      var i := 0;
      assert sessions == Expired(sessions, keys);
      while i < |order| && |expired| < BATCH_SIZE
        invariant i <= |order| && keys == Expiring(old(sessions), order[..i], now)
        invariant sessions == Expired(old(sessions), keys) && |expired| == |keys|
        invariant forall k | 0 <= k < |keys| ::
                    keys[k] in old(sessions) && expired[k] == old(sessions)[keys[k]].report && keys[k] in order[..i]
      {
        var key := order[i];
        assert order[..i + 1][..i] == order[..i] && key !in order[..i];
        if key in sessions {
          var session := sessions[key];
          if !session.estimated && !session.report.kind.Stopped? && now >= session.report.received + STALE_AFTER {
            expired := expired + [session.report];
            keys := keys + [key];
            sessions := sessions[key := session.(estimated := true)];
          }
        }
        i := i + 1;
      }
      BatchIsFull(old(sessions), order, i, now);
    }
  }

  /** Once a batch is full, or everything was looked at, the rest of the table does not matter. */
  lemma {:induction false} BatchIsFull(sessions: Sessions, order: seq<SessionKey>, i: nat, now: nat)
    requires i <= |order| && (i == |order| || |Expiring(sessions, order[..i], now)| >= BATCH_SIZE)
    ensures Expiring(sessions, order, now) == Expiring(sessions, order[..i], now)
    decreases |order|
  {
    if i == |order| {
      assert order[..i] == order;
    } else {
      var init := order[..|order| - 1];
      assert init[..i] == order[..i];
      BatchIsFull(sessions, init, i, now);
    }
  }

  // ----- any order of reports, reconciliations and publications -----

  /** `inFlight` are the reports being recorded whose session was not yet updated, `outgoing` the
      updates decided on but not yet handed to the publisher. */
  datatype World = World(
    sessions: Sessions, recorded: set<Report>, inFlight: set<Report>, outgoing: set<Update>, published: set<Update>)

  const Initial: World := World(map[], {}, {}, {}, {})

  datatype Event =
    | Record(report: Report)
    | Observe(report: Report)
    | Reconcile(order: seq<SessionKey>, now: nat)
    | Publish(update: Update)

  /** A host session numbers its reports distinctly, its stop last. */
  ghost predicate Legit(reports: set<Report>) {
    forall r, s | r in reports && s in reports && r.session == s.session ::
      && (r.sequence == s.sequence ==> r == s)
      && (r.kind.Stopped? ==> s.sequence <= r.sequence)
  }

  ghost predicate Enabled(w: World, e: Event) {
    match e
    case Record(r) =>
      0 < r.sequence < SEQUENCE_LIMIT && r !in w.recorded && Legit(w.recorded + {r})
    case Observe(r) => r in w.inFlight
    case Reconcile(_, _) => true
    case Publish(u) => u in w.outgoing
  }

  /** Recording a report publishes it at once when it starts or stops the session. */
  function Next(w: World, e: Event): World {
    match e
    case Record(r) =>
      w.(recorded := w.recorded + {r}, inFlight := w.inFlight + {r},
         published := if Boundary(r) then w.published + {UpdateOf(r)} else w.published)
    case Observe(r) =>
      w.(sessions := Observed(w.sessions, r), inFlight := w.inFlight - {r},
         outgoing := if Corrects(w.sessions, r) && !Boundary(r) then w.outgoing + {UpdateOf(r)} else w.outgoing)
    case Reconcile(order, now) =>
      var keys := Expiring(w.sessions, order, now);
      w.(sessions := Expired(w.sessions, keys),
         outgoing := w.outgoing + set k | k in keys && k in w.sessions :: EstimatedStop(w.sessions[k].report, now))
    case Publish(u) => w.(outgoing := w.outgoing - {u}, published := w.published + {u})
  }

  ghost function After(events: seq<Event>): World
    decreases |events|
  {
    if events == [] then Initial
    else
      var w, e := After(events[..|events| - 1]), events[|events| - 1];
      if Enabled(w, e) then Next(w, e) else w
  }

  function Sent(w: World): set<Update> {
    w.outgoing + w.published
  }

  // ----- invariants -----

  ghost predicate Tracking(w: World) {
    && w.inFlight <= w.recorded && Legit(w.recorded)
    && (forall r | r in w.recorded :: 0 < r.sequence < SEQUENCE_LIMIT)
    && (forall r | r in w.recorded && r !in w.inFlight ::
          r.session in w.sessions && r.sequence <= w.sessions[r.session].report.sequence)
    && (forall k | k in w.sessions ::
          var t := w.sessions[k];
          && t.report.session == k && t.report in w.recorded && t.report !in w.inFlight
          && (t.estimated ==> !t.report.kind.Stopped?))
  }

  /** An estimate is of the report still tracked, or something later was sent to correct it. */
  ghost predicate Corrected(w: World, u: Update) {
    || (u.report.session in w.sessions && w.sessions[u.report.session].estimated &&
        u.report.sequence == w.sessions[u.report.session].report.sequence)
    || (exists v :: v in Sent(w) && !v.estimated && v.report.session == u.report.session &&
                    v.report.sequence > u.report.sequence)
  }

  ghost predicate Estimates(w: World, u: Update) {
    && u.revision == 2 * u.report.sequence + 1 && u.ended.Some?
    && u.report.session in w.sessions
    && u.report.sequence <= w.sessions[u.report.session].report.sequence
    && (u.report.sequence == w.sessions[u.report.session].report.sequence ==>
          w.sessions[u.report.session].estimated && u.ended == Some(w.sessions[u.report.session].report.occurred))
    && Corrected(w, u)
  }

  ghost predicate PlainUpdates(w: World) {
    forall u | u in Sent(w) && !u.estimated :: u == UpdateOf(u.report) && u.report in w.recorded
  }

  ghost predicate EstimatedUpdates(w: World) {
    forall u | u in Sent(w) && u.estimated :: Estimates(w, u)
  }

  ghost predicate BoundariesSent(w: World) {
    forall r | r in w.recorded && Boundary(r) :: UpdateOf(r) in Sent(w)
  }

  ghost predicate HasEstimate(w: World, key: SessionKey, sequence: nat) {
    exists u :: u in Sent(w) && u.estimated && u.report.session == key && u.report.sequence == sequence
  }

  ghost predicate EstimatesSent(w: World) {
    forall k | k in w.sessions && w.sessions[k].estimated :: HasEstimate(w, k, w.sessions[k].report.sequence)
  }

  ghost predicate EstimatedOnce(w: World) {
    forall u, v | u in Sent(w) && v in Sent(w) && u.estimated && v.estimated &&
      u.report.session == v.report.session && u.report.sequence == v.report.sequence :: u == v
  }

  ghost predicate Inv(w: World) {
    && Tracking(w) && PlainUpdates(w) && EstimatedUpdates(w)
    && BoundariesSent(w) && EstimatesSent(w) && EstimatedOnce(w)
  }

  /** With the same sessions, more updates only help. */
  lemma EstimatesGrow(w: World, w': World)
    requires EstimatedUpdates(w) && EstimatesSent(w) && w'.sessions == w.sessions && Sent(w) <= Sent(w')
    requires forall u | u in Sent(w') && u !in Sent(w) :: !u.estimated
    ensures EstimatedUpdates(w') && EstimatesSent(w')
  {
    forall u | u in Sent(w') && u.estimated ensures Estimates(w', u) {
      assert Estimates(w, u) && Corrected(w, u);
    }
    forall k | k in w.sessions && w.sessions[k].estimated
      ensures HasEstimate(w', k, w.sessions[k].report.sequence)
    {
      assert HasEstimate(w, k, w.sessions[k].report.sequence);
    }
  }

  lemma RecordKeepsInv(w: World, r: Report)
    requires Inv(w) && Enabled(w, Record(r))
    ensures Inv(Next(w, Record(r)))
  {
    hide Legit, Estimates, HasEstimate;
    EstimatesGrow(w, Next(w, Record(r)));
  }

  lemma PublishKeepsInv(w: World, u: Update)
    requires Inv(w) && u in w.outgoing
    ensures Inv(Next(w, Publish(u)))
  {
    hide Legit, Estimates, HasEstimate;
    assert Sent(Next(w, Publish(u))) == Sent(w);
    EstimatesGrow(w, Next(w, Publish(u)));
  }

  lemma ObserveKeepsTracking(w: World, r: Report)
    requires Tracking(w) && r in w.inFlight
    ensures Tracking(Next(w, Observe(r)))
  {
    hide Legit;
    var w' := Next(w, Observe(r));
    if Ignored(w.sessions, r) && w.sessions[r.session].report.kind.Stopped? {
      StopIsLast(w.recorded, w.sessions[r.session].report, r);
    }
  }

  lemma StopIsLast(reports: set<Report>, stop: Report, r: Report)
    requires Legit(reports) && stop in reports && r in reports && stop.session == r.session && stop.kind.Stopped?
    ensures r.sequence <= stop.sequence
  {
  }

  /** What was estimated before stays accounted for when a newer report takes its session over. */
  lemma ObserveKeepsEstimate(w: World, r: Report, u: Update)
    requires r in w.recorded && Estimates(w, u) && (Boundary(r) ==> UpdateOf(r) in Sent(w))
    ensures Estimates(Next(w, Observe(r)), u)
  {
    var w' := Next(w, Observe(r));
    if r.session == u.report.session && !Ignored(w.sessions, r) {
      if Corrects(w.sessions, r) { assert UpdateOf(r) in Sent(w'); }
    }
  }

  lemma ObserveKeepsEstimatesSent(w: World, r: Report)
    requires EstimatesSent(w)
    ensures EstimatesSent(Next(w, Observe(r)))
  {
    var w' := Next(w, Observe(r));
    forall k | k in w'.sessions && w'.sessions[k].estimated
      ensures HasEstimate(w', k, w'.sessions[k].report.sequence)
    {
      assert HasEstimate(w, k, w.sessions[k].report.sequence);
    }
  }

  lemma ObserveKeepsUpdates(w: World, r: Report)
    requires PlainUpdates(w) && BoundariesSent(w) && EstimatedOnce(w) && r in w.recorded
    ensures var w' := Next(w, Observe(r)); PlainUpdates(w') && BoundariesSent(w') && EstimatedOnce(w')
  {
  }

  lemma ObserveKeepsInv(w: World, r: Report)
    requires Inv(w) && r in w.inFlight
    ensures Inv(Next(w, Observe(r)))
  {
    hide Estimates, HasEstimate, EstimatedOnce, EstimatesSent, PlainUpdates;
    ObserveKeepsTracking(w, r);
    ObserveKeepsUpdates(w, r);
    ObserveKeepsEstimatesSent(w, r);
    var w' := Next(w, Observe(r));
    forall u | u in Sent(w') && u.estimated ensures Estimates(w', u) { ObserveKeepsEstimate(w, r, u); }
  }

  lemma {:induction false} ExpiringAreStale(sessions: Sessions, order: seq<SessionKey>, now: nat)
    ensures forall k | k in Expiring(sessions, order, now) :: Stale(sessions, k, now)
    decreases |order|
  {
    if order != [] { ExpiringAreStale(sessions, order[..|order| - 1], now); }
  }

  /** The effect of a reconciliation, whichever stale sessions it picks. */
  ghost predicate Reconciles(w: World, w': World, keys: seq<SessionKey>, now: nat) {
    && (forall k | k in keys :: Stale(w.sessions, k, now))
    && w' == w.(sessions := Expired(w.sessions, keys), outgoing := w'.outgoing)
    && w'.outgoing == w.outgoing + set k | k in keys && k in w.sessions :: EstimatedStop(w.sessions[k].report, now)
  }

  lemma ReconcileKeepsTracking(w: World, w': World, keys: seq<SessionKey>, now: nat)
    requires Tracking(w) && Reconciles(w, w', keys, now)
    ensures Tracking(w')
  {
    hide Legit;
  }

  lemma NewEstimate(w: World, w': World, keys: seq<SessionKey>, now: nat, u: Update)
    requires Tracking(w) && Reconciles(w, w', keys, now) && u in Sent(w') && u !in Sent(w)
    ensures u.report.session in keys && u.report.session in w.sessions && u.estimated && Estimates(w', u)
    ensures u == EstimatedStop(w.sessions[u.report.session].report, now)
  {
    hide Legit;
  }

  lemma ReconcileKeepsEstimate(w: World, w': World, keys: seq<SessionKey>, now: nat, u: Update)
    requires Reconciles(w, w', keys, now) && Estimates(w, u)
    ensures Estimates(w', u)
    ensures u.report.session in keys ==> u.report.sequence < w.sessions[u.report.session].report.sequence
  {
    assert Sent(w) <= Sent(w');
  }

  lemma ReconcileKeepsInv(w: World, order: seq<SessionKey>, now: nat)
    requires Inv(w)
    ensures Inv(Next(w, Reconcile(order, now)))
  {
    var w' := Next(w, Reconcile(order, now));
    var keys := Expiring(w.sessions, order, now);
    ExpiringAreStale(w.sessions, order, now);
    assert Reconciles(w, w', keys, now);
    ReconcileKeepsTracking(w, w', keys, now);
    hide Expiring, Legit, Estimates, Expired, Stale;
    forall u | u in Sent(w') && u.estimated ensures Estimates(w', u) {
      if u in Sent(w) { ReconcileKeepsEstimate(w, w', keys, now, u); } else { NewEstimate(w, w', keys, now, u); }
    }
    ReconcileEstimatesSent(w, w', keys, now);
    ReconcileEstimatesOnce(w, w', keys, now);
  }

  lemma ReconcileEstimatesSent(w: World, w': World, keys: seq<SessionKey>, now: nat)
    requires Tracking(w) && EstimatesSent(w) && Reconciles(w, w', keys, now)
    ensures EstimatesSent(w')
  {
    hide Legit;
    forall k | k in w'.sessions && w'.sessions[k].estimated
      ensures HasEstimate(w', k, w'.sessions[k].report.sequence)
    {
      if k in keys {
        assert EstimatedStop(w.sessions[k].report, now) in Sent(w');
      } else {
        assert HasEstimate(w, k, w.sessions[k].report.sequence);
      }
    }
  }

  lemma ReconcileEstimatesOnce(w: World, w': World, keys: seq<SessionKey>, now: nat)
    requires Tracking(w) && EstimatedUpdates(w) && EstimatedOnce(w) && Reconciles(w, w', keys, now)
    ensures EstimatedOnce(w')
  {
    forall u, v | u in Sent(w') && v in Sent(w') && u.estimated && v.estimated &&
      u.report.session == v.report.session && u.report.sequence == v.report.sequence
      ensures u == v
    {
      if u !in Sent(w) { NewEstimate(w, w', keys, now, u); } else { ReconcileKeepsEstimate(w, w', keys, now, u); }
      if v !in Sent(w) { NewEstimate(w, w', keys, now, v); } else { ReconcileKeepsEstimate(w, w', keys, now, v); }
    }
  }

  lemma {:induction false} RunKeepsInv(events: seq<Event>)
    ensures Inv(After(events))
    decreases |events|
  {
    if events != [] {
      var w, e := After(events[..|events| - 1]), events[|events| - 1];
      RunKeepsInv(events[..|events| - 1]);
      if Enabled(w, e) {
        match e
        case Record(r) => RecordKeepsInv(w, r);
        case Observe(r) => ObserveKeepsInv(w, r);
        case Reconcile(order, now) => ReconcileKeepsInv(w, order, now);
        case Publish(u) => PublishKeepsInv(w, u);
      }
    }
  }

  /** No two updates of a session share a revision, and every revision is exact as a double. */
  lemma RevisionsAreDistinct(events: seq<Event>, u: Update, v: Update)
    requires u in Sent(After(events)) && v in Sent(After(events)) && u.report.session == v.report.session
    ensures u.revision == v.revision ==> u == v
    ensures u.revision < 2 * SEQUENCE_LIMIT
  {
    RunKeepsInv(events);
  }

  /** Whether the session is over as far as the tracker knows. */
  predicate Over(w: World, key: SessionKey) {
    key in w.sessions && (w.sessions[key].report.kind.Stopped? || w.sessions[key].estimated)
  }

  ghost predicate Greatest(w: World, u: Update) {
    && u in w.published
    && forall v | v in w.published && v.report.session == u.report.session :: v.revision <= u.revision
  }

  /** When nothing is under way, the published update with the greatest revision carries an end time
      exactly when the session is stopped or estimated, that of its last report; and a session that is
      over has one. */
  lemma RevisionsConverge(events: seq<Event>, key: SessionKey)
    requires After(events).inFlight == {} && After(events).outgoing == {}
    ensures var w := After(events);
      && (forall u | Greatest(w, u) && u.report.session == key ::
            u.ended == if Over(w, key) then Some(w.sessions[key].report.occurred) else None)
      && (Over(w, key) ==> exists u :: u in w.published && u.report.session == key)
  {
    RunKeepsInv(events);
    var w := After(events);
    forall u | Greatest(w, u) && u.report.session == key
      ensures u.ended == if Over(w, key) then Some(w.sessions[key].report.occurred) else None
    {
      assert u in Sent(w);
      if u.estimated { assert Estimates(w, u); }
    }
  }
}
