/** A host may act for its actor only while its lease is confirmed. Instants are nanoseconds of one
    common time; each wall clock runs a constant offset ahead of it and is read in whole milliseconds. */
module Leases {
  import opened Wrappers

  const MS: nat := 1_000_000
  const MARGIN: nat := 5_000 * MS

  /** What a clock that runs `offset` ahead shows at `t`. */
  function Millis(offset: nat, t: nat): nat {
    (offset + t) / MS
  }

  // ----- the fence -----

  datatype Fence = Fence(deadline: Option<nat>, fenced: bool)

  function CheckedFence(f: Fence, now: nat): (Fence, bool) {
    if f.deadline.None? then (f, false)
    else
      var fenced := f.fenced || f.deadline.value <= now;
      (f.(fenced := fenced), !fenced)
  }

  function BegunFence(f: Fence, now: nat): (Fence, bool) {
    if f.deadline.Some? then CheckedFence(f, now) else (f, !f.fenced)
  }

  function ConfirmedFence(f: Fence, started: nat, duration: nat, now: nat): (Fence, bool) {
    var (begun, ok) := BegunFence(f, now);
    var deadline := started + (if duration < MARGIN then 0 else duration - MARGIN);
    if !ok then (begun, false)
    else if deadline <= now then (begun.(fenced := true), false)
    else (begun.(deadline := Some(deadline)), true)
  }

  class LeaseFence {
    var deadline: Option<nat>
    var fenced: bool

    ghost function View(): Fence
      reads this
    {
      Fence(deadline, fenced)
    }

    constructor ()
      ensures View() == Fence(None, false)
    {
      deadline, fenced := None, false;
    }

    method Check(now: nat) returns (ok: bool)
      modifies this
      ensures (View(), ok) == CheckedFence(old(View()), now)
      ensures old(fenced) ==> fenced && !ok
    {
      if deadline.None? { return false; }
      if deadline.value <= now { fenced := true; }
      return !fenced;
    }

    method Begin(now: nat) returns (ok: bool)
      modifies this
      ensures (View(), ok) == BegunFence(old(View()), now)
      ensures old(fenced) ==> fenced && !ok
    {
      if deadline.Some? {
        var live := Check(now);
        if !live { return false; }
      }
      return !fenced;
    }

    method Confirm(started: nat, duration: nat, now: nat) returns (ok: bool)
      modifies this
      ensures (View(), ok) == ConfirmedFence(old(View()), started, duration, now)
      ensures old(fenced) ==> fenced && !ok
    {
      var begun := Begin(now);
      if !begun { return false; }
      var window := if duration < MARGIN then 0 else duration - MARGIN;
      var until := started + window;
      if until <= now { fenced := true; }
      if fenced { return false; }
      deadline := Some(until);
      return true;
    }
  }

  // ----- registrations, checks and the clock in any order -----

  /** A registration that began at `started` and that the store stamped at `stamped`. */
  datatype Registration = Registration(started: nat, stamped: nat, duration: nat)

  /** The instant, on the store's clock, at which the stamped lease runs out. */
  function Expiry(r: Registration, store: nat): nat {
    (Millis(store, r.stamped) + r.duration) * MS
  }

  datatype Event =
    | Pass(elapsed: nat)
    | Begin(duration: nat)
    | Stamp
    | Confirm
    | Abandon
    | Check
    | Shutdown

  /** `pending` is the registration under way and `confirmed` the last one that succeeded. Only one
      registration is under way at a time. `granted` says whether the last begin, confirm or check
      succeeded. */
  datatype Host = Host(
    now: nat, fence: Fence, pending: Option<Registration>, stamped: bool,
    confirmed: Option<Registration>, granted: bool)

  const Initial: Host := Host(0, Fence(None, false), None, false, None, false)

  function Step(h: Host, e: Event): Host {
    match e
    case Pass(elapsed) => h.(now := h.now + elapsed)
    case Begin(duration) =>
      if h.pending.Some? then h
      else
        var (fence, ok) := BegunFence(h.fence, h.now);
        h.(fence := fence, granted := ok, stamped := false,
           pending := if ok then Some(Registration(h.now, h.now, duration)) else None)
    case Stamp =>
      if h.pending.None? || h.stamped then h
      else h.(pending := Some(h.pending.value.(stamped := h.now)), stamped := true)
    case Confirm =>
      if h.pending.None? || !h.stamped then h
      else
        var r := h.pending.value;
        var (fence, ok) := ConfirmedFence(h.fence, r.started, r.duration * MS, h.now);
        h.(fence := fence, granted := ok, pending := None,
           confirmed := if ok then Some(r) else h.confirmed)
    case Check =>
      var (fence, ok) := CheckedFence(h.fence, h.now);
      h.(fence := fence, granted := ok)
    case Abandon => h.(pending := None)
    case Shutdown => h.(fence := h.fence.(fenced := true))
  }

  ghost function After(events: seq<Event>): Host
    decreases |events|
  {
    if events == [] then Initial else Step(After(events[..|events| - 1]), events[|events| - 1])
  }

  /** The deadline in force is that of the last confirmed registration. */
  ghost predicate Inv(h: Host) {
    && (h.pending.Some? ==> h.pending.value.started <= h.pending.value.stamped <= h.now)
    && (h.fence.deadline.Some? <==> h.confirmed.Some?)
    && (h.confirmed.Some? ==>
          var r := h.confirmed.value;
          && r.started <= r.stamped <= h.now
          && r.duration * MS >= MARGIN
          && h.fence.deadline.value == r.started + r.duration * MS - MARGIN)
  }

  lemma {:induction false} RunKeepsInv(events: seq<Event>)
    ensures Inv(After(events))
    decreases |events|
  {
    if events != [] { RunKeepsInv(events[..|events| - 1]); }
  }

  /** Once the deadline in force has passed, or the host is fenced, nothing succeeds any more, however
      much later and in whatever order it is tried. */
  ghost predicate Over(h: Host) {
    h.fence.fenced || (h.fence.deadline.Some? && h.fence.deadline.value <= h.now)
  }

  predicate Asks(h: Host, e: Event) {
    e.Check? || (e.Begin? && h.pending.None?) || (e.Confirm? && h.pending.Some? && h.stamped)
  }

  lemma StepKeepsOver(h: Host, e: Event)
    requires Over(h)
    ensures Over(Step(h, e)) && Step(h, e).confirmed == h.confirmed
    ensures Asks(h, e) ==> !Step(h, e).granted
  {
  }

  lemma {:induction false} FencingIsAbsorbing(events: seq<Event>, more: seq<Event>)
    requires Over(After(events))
    ensures Over(After(events + more)) && After(events + more).confirmed == After(events).confirmed
    ensures more != [] && Asks(After((events + more)[..|events + more| - 1]), more[|more| - 1]) ==>
              !After(events + more).granted
    decreases |more|
  {
    if more == [] {
      assert events + more == events;
    } else {
      var all := events + more;
      assert all[..|all| - 1] == events + more[..|more| - 1];
      FencingIsAbsorbing(events, more[..|more| - 1]);
      StepKeepsOver(After(events + more[..|more| - 1]), more[|more| - 1]);
    }
  }

  /** How long a registration lets the host act. */
  function SafeUntil(r: Registration): nat {
    r.started + if r.duration * MS < MARGIN then 0 else r.duration * MS - MARGIN
  }

  /** The last confirmed lease, if there is one, is still safe. */
  predicate StillSafe(h: Host) {
    h.confirmed.Some? ==> h.now < SafeUntil(h.confirmed.value)
  }

  /** The event fences the host for good. */
  predicate Fences(h: Host, e: Event) {
    || e.Shutdown?
    || (Asks(h, e) && !StillSafe(h))
    || (e.Confirm? && Asks(h, e) && SafeUntil(h.pending.value) <= h.now)
  }

  /** A check succeeds exactly while a confirmed lease is safe, a registration may begin or be confirmed
      exactly while none has become unsafe, and the confirmed one takes over; all only on a host that was
      never fenced. */
  lemma AskedExactly(h: Host, e: Event)
    requires Inv(h)
    ensures Step(h, e).fence.fenced <==> h.fence.fenced || Fences(h, e)
    ensures Asks(h, e) ==>
      (Step(h, e).granted <==> !h.fence.fenced && !Fences(h, e) && (e.Check? ==> h.confirmed.Some?))
    ensures Step(h, e).confirmed ==
      if e.Confirm? && Asks(h, e) && Step(h, e).granted then h.pending else h.confirmed
    ensures e.Begin? && Asks(h, e) ==>
      Step(h, e).pending == if Step(h, e).granted then Some(Registration(h.now, h.now, e.duration)) else None
    ensures e.Abandon? || (e.Confirm? && Asks(h, e)) ==> Step(h, e).pending.None?
  {
  }

  ghost predicate FencesAt(events: seq<Event>, i: int) {
    0 <= i < |events| && Fences(After(events[..i]), events[i])
  }

  /** A host is fenced exactly when some event of its run fenced it. */
  lemma {:induction false} FencedExactly(events: seq<Event>)
    ensures After(events).fence.fenced <==> exists i :: FencesAt(events, i)
    decreases |events|
  {
    hide Step, Fences, Inv;
    if events != [] {
      var init, e := events[..|events| - 1], events[|events| - 1];
      FencedExactly(init);
      RunKeepsInv(init);
      AskedExactly(After(init), e);
      forall i | 0 <= i < |init| ensures FencesAt(events, i) <==> FencesAt(init, i) {
        assert events[..i] == init[..i];
      }
      assert events[..|init|] == init;
      assert FencesAt(events, |init|) <==> Fences(After(init), e);
      assert forall i | FencesAt(init, i) :: FencesAt(events, i);
    }
  }

  // ----- where a confirmed registration comes from -----

  /** In the i-th event the host begins the registration. */
  ghost predicate BeginsAt(events: seq<Event>, i: int, r: Registration) {
    && 0 <= i < |events| && events[i] == Begin(r.duration)
    && After(events[..i]).pending.None? && After(events[..i]).now == r.started
  }

  /** In the j-th event the store stamps it. */
  ghost predicate StampsAt(events: seq<Event>, j: int, r: Registration) {
    && 0 <= j < |events| && events[j].Stamp? && After(events[..j]).now == r.stamped
  }

  ghost predicate BeganIn(events: seq<Event>, r: Registration) {
    exists i :: BeginsAt(events, i, r)
  }

  ghost predicate StampedIn(events: seq<Event>, r: Registration) {
    exists i, j :: i < j && BeginsAt(events, i, r) && StampsAt(events, j, r)
  }

  lemma BeginsEarlier(events: seq<Event>, e: Event, i: int, r: Registration)
    ensures BeginsAt(events, i, r) ==> BeginsAt(events + [e], i, r)
    ensures StampsAt(events, i, r) ==> StampsAt(events + [e], i, r)
  {
    hide After;
    if 0 <= i < |events| { assert (events + [e])[..i] == events[..i]; }
  }

  lemma HistoryExtends(events: seq<Event>, e: Event, r: Registration)
    ensures BeganIn(events, r) ==> BeganIn(events + [e], r)
    ensures StampedIn(events, r) ==> StampedIn(events + [e], r)
  {
    hide BeginsAt, StampsAt;
    forall i { BeginsEarlier(events, e, i, r); }
  }

  ghost predicate Traced(events: seq<Event>) {
    var h := After(events);
    && (h.pending.Some? ==>
          var r := h.pending.value;
          if h.stamped then StampedIn(events, r) else r.stamped == r.started && BeganUnstamped(events, r))
    && (h.confirmed.Some? ==> StampedIn(events, h.confirmed.value))
  }

  /** A registration not yet stamped is recorded with the time it began; the stamp will replace it. */
  ghost predicate BeganUnstamped(events: seq<Event>, r: Registration) {
    forall stamped :: BeganIn(events, r.(stamped := stamped))
  }

  lemma BeginIsTraced(events: seq<Event>, duration: nat)
    requires After(events).pending.None?
    ensures BeganUnstamped(events + [Begin(duration)], Registration(After(events).now, After(events).now, duration))
  {
    var all := events + [Begin(duration)];
    assert all[..|events|] == events;
    forall stamped ensures BeganIn(all, Registration(After(events).now, stamped, duration)) {
      assert BeginsAt(all, |events|, Registration(After(events).now, stamped, duration));
    }
  }

  lemma StampIsTraced(events: seq<Event>, r: Registration)
    requires BeganUnstamped(events, r)
    ensures StampedIn(events + [Stamp], r.(stamped := After(events).now))
  {
    var r', all := r.(stamped := After(events).now), events + [Stamp];
    assert BeganIn(events, r');
    var i :| BeginsAt(events, i, r');
    BeginsEarlier(events, Stamp, i, r');
    assert all[..|events|] == events;
    assert StampsAt(all, |events|, r');
  }

  lemma PendingIsTraced(events: seq<Event>, e: Event)
    requires Traced(events) && After(events + [e]).pending.Some? && After(events + [e]).confirmed == After(events).confirmed
    requires After(events + [e]) == Step(After(events), e)
    ensures Traced(events + [e])
  {
    var h := After(events);
    if h.confirmed.Some? { HistoryExtends(events, e, h.confirmed.value); }
    if h.pending.Some? {
      HistoryExtends(events, e, h.pending.value);
      if !h.stamped {
        UnstampedExtends(events, e, h.pending.value);
        if e.Stamp? { StampIsTraced(events, h.pending.value); }
      }
    } else if e.Begin? {
      BeginIsTraced(events, e.duration);
    }
    hide After, StampedIn, BeganUnstamped, CheckedFence, BegunFence, ConfirmedFence;
  }

  lemma ConfirmedIsTraced(events: seq<Event>, e: Event)
    requires Traced(events) && After(events + [e]).pending.None?
    requires After(events + [e]) == Step(After(events), e)
    ensures Traced(events + [e])
  {
    var h := After(events);
    if h.confirmed.Some? { HistoryExtends(events, e, h.confirmed.value); }
    if h.pending.Some? { HistoryExtends(events, e, h.pending.value); }
    hide After, StampedIn, BeganUnstamped, CheckedFence, BegunFence, ConfirmedFence;
  }

  /** The lease a host goes by was begun and then stamped by the store in events of its run, at the times
      it is recorded with. */
  lemma {:induction false} RegistrationsAreTraced(events: seq<Event>)
    ensures Traced(events)
    decreases |events|
  {
    if events != [] {
      hide Traced, After, CheckedFence, BegunFence, ConfirmedFence;
      var init, e := events[..|events| - 1], events[|events| - 1];
      assert events == init + [e];
      RegistrationsAreTraced(init);
      AfterExtends(init, e);
      if After(events).pending.Some? { PendingIsTraced(init, e); } else { ConfirmedIsTraced(init, e); }
    }
  }

  lemma AfterExtends(events: seq<Event>, e: Event)
    ensures After(events + [e]) == Step(After(events), e)
  {
    hide Step;
    assert (events + [e])[..|events + [e]| - 1] == events;
  }

  lemma UnstampedExtends(events: seq<Event>, e: Event, r: Registration)
    requires BeganUnstamped(events, r)
    ensures BeganUnstamped(events + [e], r)
  {
    hide BeganIn;
    forall stamped ensures BeganIn(events + [e], r.(stamped := stamped)) {
      assert BeganIn(events, r.(stamped := stamped));
      HistoryExtends(events, e, r.(stamped := stamped));
    }
  }

  /** How long the stamped lease still has to run, on the store's clock. */
  function Left(r: Registration, store: nat, now: nat): int {
    Expiry(r, store) - (store + now)
  }

  lemma MillisBounds(offset: nat, t: nat)
    ensures Millis(offset, t) * MS <= offset + t < Millis(offset, t) * MS + MS
  {
  }

  /** A check that succeeds leaves more than 4.999 seconds of the last confirmed lease, whatever the
      offset between the two clocks. */
  lemma CheckLeavesMargin(events: seq<Event>, store: nat)
    requires events != [] && events[|events| - 1].Check? && After(events).granted
    ensures After(events).confirmed.Some?
    ensures Left(After(events).confirmed.value, store, After(events).now) > MARGIN - MS
  {
    RunKeepsInv(events);
    RunKeepsInv(events[..|events| - 1]);
    var r := After(events).confirmed.value;
    MillisBounds(store, r.stamped);
  }

  /** Every instant at which a check can succeed after `r` leaves the full five seconds exactly when
      the stamp, read in whole milliseconds, is at most one nanosecond before the start of the
      registration. */
  lemma FullMarginExactly(r: Registration, store: nat)
    requires r.duration * MS > MARGIN && r.started <= r.stamped
    ensures (forall now: nat | CheckedFence(Fence(Some(r.started + r.duration * MS - MARGIN), false), now).1 ::
               Left(r, store, now) >= MARGIN)
            <==> store + r.started <= Millis(store, r.stamped) * MS + 1
  {
    var last := r.started + r.duration * MS - MARGIN - 1;
    assert Left(r, store, last) == Millis(store, r.stamped) * MS - store - r.started + MARGIN + 1;
    assert CheckedFence(Fence(Some(r.started + r.duration * MS - MARGIN), false), last).1;
  }

  /** A registration that begins and is stamped at the end of a millisecond, and a check just before its
      deadline. */
  function ShortRun(): seq<Event> {
    [Pass(999_999), Begin(30_000), Stamp, Confirm, Pass(25_000 * MS - 1), Check]
  }

  function ShortState(n: nat): Host {
    var r := Registration(999_999, 999_999, 30_000);
    var fence := Fence(Some(999_999 + 25_000 * MS), false);
    if n == 0 then Initial
    else if n == 1 then Initial.(now := 999_999)
    else if n == 2 then Initial.(now := 999_999, pending := Some(r), granted := true)
    else if n == 3 then Initial.(now := 999_999, pending := Some(r), stamped := true, granted := true)
    else Host(if n == 4 then 999_999 else 25_000 * MS + 999_998, fence, None, true, Some(r), true)
  }

  lemma {:induction false} ShortRunReaches(n: nat)
    requires n <= 6
    ensures After(ShortRun()[..n]) == ShortState(n)
    decreases n
  {
    if n > 0 {
      ShortRunReaches(n - 1);
      assert ShortRun()[..n][..n - 1] == ShortRun()[..n - 1];
      assert Step(ShortState(n - 1), ShortRun()[n - 1]) == ShortState(n);
    }
  }

  /** A check can succeed with less than five seconds left: the stamp drops a fraction of a
      millisecond. */
  lemma MarginCanFallShort()
    ensures var h := After(ShortRun());
      h.granted && h.confirmed.Some? && Left(h.confirmed.value, 0, h.now) < MARGIN
  {
    ShortRunReaches(6);
    assert ShortRun()[..6] == ShortRun();
  }

  // ----- the renewal loop -----

  /** A renewal as the maintainer sees it: the host's clock is read at `sampled`, the store stamps at
      `stamped`, the timer is anchored at `anchored` and the host's clock read again at `finished`. */
  datatype Renewal = Renewal(sampled: nat, stamped: nat, anchored: nat, finished: nat)
  {
    predicate Timely() {
      sampled <= stamped <= anchored <= finished
    }

    /** Milliseconds the locally confirmed window still has to run. */
    function Remaining(host: nat, duration: nat): nat {
      var until := Millis(host, sampled) + duration;
      if until < Millis(host, finished) then 0 else until - Millis(host, finished)
    }

    function LocalDeadline(host: nat, duration: nat): nat {
      anchored + Remaining(host, duration) * MS
    }
  }

  /** What the environment does to one round of the loop: when shutdown is asked for, if it is, how long
      each leg of the renewal takes, and whether the store accepts it. */
  datatype Round = Round(
    shutdown: Option<nat>, toSample: nat, toStamp: nat, toAnchor: nat, toFinish: nat, accepted: bool)
  {
    function RenewalFrom(began: nat): (r: Renewal)
      ensures r.Timely() && began <= r.sampled
    {
      var sampled := began + toSample;
      var stamped := sampled + toStamp;
      var anchored := stamped + toAnchor;
      Renewal(sampled, stamped, anchored, anchored + toFinish)
    }
  }

  datatype End = Ongoing | Stopped | Lost(at: nat)

  /** The loop's state: the time, and the last renewal confirmed. */
  datatype Loop = Loop(now: nat, last: Renewal, end: End)

  function Latest(a: nat, b: nat): nat {
    if a < b then b else a
  }

  /** Shutdown wins over the deadline, and the deadline over whatever else is awaited until `until`. */
  function Awaited(now: nat, until: nat, deadline: nat, shutdown: Option<nat>): End {
    if shutdown.Some? && shutdown.value <= deadline && shutdown.value <= until then Stopped
    else if deadline <= until then Lost(Latest(now, deadline))
    else Ongoing
  }

  function RoundDone(l: Loop, round: Round, renewEvery: nat, host: nat, duration: nat): Loop
    requires l.end.Ongoing?
  {
    var deadline := l.last.LocalDeadline(host, duration);
    var waited := Awaited(l.now, l.now + renewEvery, deadline, round.shutdown);
    if !waited.Ongoing? then l.(end := waited)
    else
      var began := l.now + renewEvery;
      var renewal := round.RenewalFrom(began);
      var answered := Awaited(began, renewal.finished, deadline, round.shutdown);
      if !answered.Ongoing? then l.(now := began, end := answered)
      else if round.accepted && renewal.Remaining(host, duration) > 0 then Loop(renewal.finished, renewal, Ongoing)
      else l.(now := renewal.finished)
  }

  function Rounds(l: Loop, rounds: seq<Round>, renewEvery: nat, host: nat, duration: nat): Loop
    decreases |rounds|
  {
    if rounds == [] || !l.end.Ongoing? then l
    else Rounds(RoundDone(l, rounds[0], renewEvery, host, duration), rounds[1..], renewEvery, host, duration)
  }

  method RenewUntilStopped(first: Renewal, rounds: seq<Round>, renewEvery: nat, host: nat, duration: nat)
    returns (end: End, last: Renewal, now: nat)
    ensures Loop(now, last, end) == Rounds(Loop(first.finished, first, Ongoing), rounds, renewEvery, host, duration)
  {
    last, now, end := first, first.finished, Ongoing;
    var localDeadline := first.LocalDeadline(host, duration);
    var i := 0;
    while i < |rounds|
      invariant i <= |rounds| && end.Ongoing? && localDeadline == last.LocalDeadline(host, duration)
      invariant Rounds(Loop(now, last, end), rounds[i..], renewEvery, host, duration)
             == Rounds(Loop(first.finished, first, Ongoing), rounds, renewEvery, host, duration)
    {
      var round := rounds[i];
      assert rounds[i..][1..] == rounds[i + 1..];
      i := i + 1;
      end := Awaited(now, now + renewEvery, localDeadline, round.shutdown);
      if !end.Ongoing? { return; }
      now := now + renewEvery;
      var renewal := round.RenewalFrom(now);
      end := Awaited(now, renewal.finished, localDeadline, round.shutdown);
      if !end.Ongoing? { return; }
      now := renewal.finished;
      if round.accepted && renewal.Remaining(host, duration) > 0 {
        last, localDeadline := renewal, renewal.LocalDeadline(host, duration);
      }
    }
  }

  /** The registration a renewal amounts to. */
  function RegistrationOf(r: Renewal, duration: nat): Registration {
    Registration(r.sampled, r.stamped, duration)
  }

  function Dropped(offset: nat, t: nat): nat {
    (offset + t) % MS
  }

  /** The local deadline lapses by the stamped expiry exactly when the fractions of a millisecond
      dropped by the last reading and by the stamp, less that of the first reading, are covered by the
      time the request took to be stamped and the time between anchoring and the last reading. */
  lemma LocalDeadlineByExpiryExactly(r: Renewal, host: nat, store: nat, duration: nat)
    requires r.Timely() && r.Remaining(host, duration) > 0
    ensures store + r.LocalDeadline(host, duration) <= Expiry(RegistrationOf(r, duration), store) <==>
            Dropped(host, r.finished) + Dropped(store, r.stamped) - Dropped(host, r.sampled)
              <= (r.stamped - r.sampled) + (r.finished - r.anchored)
    ensures store + r.LocalDeadline(host, duration) < Expiry(RegistrationOf(r, duration), store) + 2 * MS
  {
    assert Millis(host, r.finished) * MS == host + r.finished - Dropped(host, r.finished);
    assert Millis(store, r.stamped) * MS == store + r.stamped - Dropped(store, r.stamped);
    assert Millis(host, r.sampled) * MS == host + r.sampled - Dropped(host, r.sampled);
  }

  /** The local deadline can come after the stamped expiry. */
  lemma LocalDeadlineCanBeLate()
    ensures var r := Renewal(0, 0, 999_999, 999_999);
      r.Timely() && r.LocalDeadline(0, 30_000) > Expiry(RegistrationOf(r, 30_000), 0)
  {
  }

  lemma {:induction false} LoopKeeps(l: Loop, rounds: seq<Round>, renewEvery: nat, host: nat, duration: nat)
    requires l.end.Ongoing? && l.last.Timely() && l.last.Remaining(host, duration) > 0
    requires l.now == l.last.finished || l.now < l.last.LocalDeadline(host, duration)
    ensures var l' := Rounds(l, rounds, renewEvery, host, duration);
      && l'.last.Timely() && l'.last.Remaining(host, duration) > 0
      && (l'.end.Lost? ==>
            l'.end.at == l'.last.LocalDeadline(host, duration)
            || (l'.end.at == l'.last.finished && l'.last.LocalDeadline(host, duration) <= l'.last.finished))
      && (l'.end.Ongoing? ==> l'.now == l'.last.finished || l'.now < l'.last.LocalDeadline(host, duration))
    decreases |rounds|
  {
    if rounds != [] {
      var next := RoundDone(l, rounds[0], renewEvery, host, duration);
      if next.end.Ongoing? { LoopKeeps(next, rounds[1..], renewEvery, host, duration); }
    }
  }

  /** However the rounds go, the loop reports the loss of the lease less than two milliseconds after
      the expiry stamped for the last renewal it confirmed, and it never outlives that moment. */
  lemma LossIsReportedByExpiry(
    first: Renewal, rounds: seq<Round>, renewEvery: nat, host: nat, store: nat, duration: nat)
    requires first.Timely() && first.Remaining(host, duration) > 0
    ensures var l := Rounds(Loop(first.finished, first, Ongoing), rounds, renewEvery, host, duration);
      var expiry := Expiry(RegistrationOf(l.last, duration), store);
      && (l.end.Lost? ==> store + l.end.at < expiry + 2 * MS)
      && (l.end.Ongoing? ==> store + l.now < expiry + 2 * MS)
  {
    LoopKeeps(Loop(first.finished, first, Ongoing), rounds, renewEvery, host, duration);
    var l := Rounds(Loop(first.finished, first, Ongoing), rounds, renewEvery, host, duration);
    LocalDeadlineByExpiryExactly(l.last, host, store, duration);
    MillisBounds(host, l.last.sampled);
    MillisBounds(host, l.last.finished);
    MillisBounds(store, l.last.stamped);
  }
}
