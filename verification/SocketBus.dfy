/** The Redis socket bus keeps one channel subscribed per watched actor, across commands that are
    still queued, sessions that are lost and reconnections. */
module SocketBus {
  import opened Actors
  import opened Wrappers

  datatype Command = Subscribe(actor: ActorId) | Unsubscribe(actor: ActorId)

  /** A session first renews the subscriptions it found, then serves the command queue. */
  datatype Phase = Down | Resubscribing(remaining: seq<ActorId>) | Connected

  /** `sink` is what Redis has subscribed for the current session. */
  datatype Bus = Bus(watched: map<ActorId, nat>, subscribed: seq<ActorId>, queue: seq<Command>, phase: Phase, sink: set<ActorId>)

  const Initial: Bus := Bus(map[], [], [], Down, {})

  function Without(s: seq<ActorId>, a: ActorId): seq<ActorId> {
    if s == [] then []
    else
      var before, last := Without(s[..|s| - 1], a), s[|s| - 1];
      if last == a then before else before + [last]
  }

  function Watched(b: Bus, a: ActorId): Bus {
    var count := (if a in b.watched then b.watched[a] else 0) + 1;
    b.(watched := b.watched[a := count],
       subscribed := if count == 1 then b.subscribed + [a] else b.subscribed,
       queue := b.queue + [Subscribe(a)])
  }

  function Unwatched(b: Bus, a: ActorId): Bus {
    if a !in b.watched then b
    else if b.watched[a] > 1 then b.(watched := b.watched[a := b.watched[a] - 1])
    else b.(watched := b.watched - {a}, subscribed := Without(b.subscribed, a), queue := b.queue + [Unsubscribe(a)])
  }

  function Lost(b: Bus): Bus {
    b.(phase := Down, sink := {})
  }

  function SessionBegun(b: Bus): Bus {
    b.(phase := Resubscribing(b.subscribed), sink := {})
  }

  function Resubscribed(b: Bus, ok: bool): Bus
    requires b.phase.Resubscribing?
  {
    if b.phase.remaining == [] then b.(phase := Connected)
    else if !ok then Lost(b)
    else b.(phase := Resubscribing(b.phase.remaining[1..]), sink := b.sink + {b.phase.remaining[0]})
  }

  /** A command that Redis refuses is gone, and the session with it. */
  function Handled(b: Bus, ok: bool): Bus
    requires b.phase.Connected? && b.queue != []
  {
    var rest, c := b.(queue := b.queue[1..]), b.queue[0];
    if !ok then Lost(rest)
    else rest.(sink := if c.Subscribe? then b.sink + {c.actor} else b.sink - {c.actor})
  }

  class RedisSocketBus {
    var watched: map<ActorId, nat>
    var subscribed: seq<ActorId>
    var queue: seq<Command>
    var phase: Phase
    var sink: set<ActorId>

    ghost function View(): Bus
      reads this
    {
      Bus(watched, subscribed, queue, phase, sink)
    }

    constructor ()
      ensures View() == Initial
    {
      watched, subscribed, queue, phase, sink := map[], [], [], Down, {};
    }

    /** Refused while the bus is not connected. */
    method Watch(a: ActorId) returns (accepted: bool)
      modifies this
      ensures accepted <==> old(phase).Connected?
      ensures View() == if accepted then Watched(old(View()), a) else old(View())
    {
      if !phase.Connected? { return false; }
      var count := if a in watched then watched[a] + 1 else 1;
      watched := watched[a := count];
      if count == 1 { subscribed := subscribed + [a]; }
      queue := queue + [Subscribe(a)];
      return true;
    }

    method Unwatch(a: ActorId)
      requires forall k | k in watched :: watched[k] > 0
      modifies this
      ensures View() == Unwatched(old(View()), a)
    {
      if a !in watched { return; }
      var count := watched[a] - 1;
      if count > 0 {
        watched := watched[a := count];
        return;
      }
      watched := watched - {a};
      var retained: seq<ActorId> := [];
      for i := 0 to |subscribed|
        invariant retained == Without(subscribed[..i], a)
      {
        assert subscribed[..i + 1][..i] == subscribed[..i];
        if subscribed[i] != a { retained := retained + [subscribed[i]]; }
      }
      assert subscribed[..|subscribed|] == subscribed;
      subscribed := retained;
      queue := queue + [Unsubscribe(a)];
    }

    /** Renews the subscriptions found when the session began; `accepted` is how many Redis accepts. */
    method Resubscribe(accepted: nat)
      modifies this
      ensures accepted < |old(subscribed)| ==> View() == Lost(old(View()))
      ensures accepted >= |old(subscribed)| ==>
                View() == old(View()).(phase := Connected, sink := set a | a in old(subscribed))
    {
      var resubscribe := subscribed;
      phase, sink := Resubscribing(resubscribe), {};
      for i := 0 to |resubscribe|
        invariant View() == old(View()).(phase := Resubscribing(resubscribe[i..]), sink := sink)
        invariant sink == set a | a in resubscribe[..i]
        invariant i <= accepted
      {
        if i == accepted {
          phase, sink := Down, {};
          return;
        }
        sink := sink + {resubscribe[i]};
        phase := Resubscribing(resubscribe[i + 1..]);
        assert resubscribe[..i + 1] == resubscribe[..i] + [resubscribe[i]];
      }
      assert resubscribe[..|resubscribe|] == resubscribe;
      phase := Connected;
    }

    method Handle(ok: bool)
      requires phase.Connected? && queue != []
      modifies this
      ensures View() == Handled(old(View()), ok)
    {
      var c := queue[0];
      queue := queue[1..];
      if !ok {
        phase, sink := Down, {};
        return;
      }
      match c
      case Subscribe(a) => sink := sink + {a};
      case Unsubscribe(a) => sink := sink - {a};
    }
  }

  // ----- any interleaving -----

  /** A watch found the bus connected before it took effect, which need not still be so. */
  datatype Event =
    | Watch(actor: ActorId)
    | Unwatch(actor: ActorId)
    | Begin
    | Renew(ok: bool)
    | Handle(ok: bool)
    | Lose

  function Next(b: Bus, e: Event): Bus {
    match e
    case Watch(a) => Watched(b, a)
    case Unwatch(a) => Unwatched(b, a)
    case Begin => if b.phase.Down? then SessionBegun(b) else b
    case Renew(ok) => if b.phase.Resubscribing? then Resubscribed(b, ok) else b
    case Handle(ok) => if b.phase.Connected? && b.queue != [] then Handled(b, ok) else b
    case Lose => Lost(b)
  }

  function After(events: seq<Event>): Bus {
    if events == [] then Initial else Next(After(events[..|events| - 1]), events[|events| - 1])
  }

  /** The last command queued for an actor, which decides where its subscription will end up. */
  function LastFor(queue: seq<Command>, a: ActorId): Option<Command> {
    if queue == [] then None
    else if queue[|queue| - 1].actor == a then Some(queue[|queue| - 1])
    else LastFor(queue[..|queue| - 1], a)
  }

  ghost predicate Subscribing(b: Bus, a: ActorId) {
    a in b.sink || (b.phase.Resubscribing? && a in b.phase.remaining)
  }

  ghost predicate Tracks(b: Bus, a: ActorId) {
    var last := LastFor(b.queue, a);
    && (last.Some? ==> (last.value.Subscribe? <==> a in b.watched))
    && (last.None? && !b.phase.Down? ==> (Subscribing(b, a) <==> a in b.watched))
  }

  /** The list to renew holds each watched actor once. */
  ghost predicate Listed(b: Bus) {
    && (forall a | a in b.watched :: b.watched[a] > 0)
    && (forall a :: a in b.subscribed <==> a in b.watched)
    && Distinct(b.subscribed)
  }

  ghost predicate Inv(b: Bus) {
    && Listed(b)
    && (b.phase.Down? ==> b.sink == {})
    && (forall a :: Tracks(b, a))
  }

  lemma DistinctAppend(s: seq<ActorId>, a: ActorId)
    requires Distinct(s) && a !in s
    ensures Distinct(s + [a])
  {
    assert forall i | 0 <= i < |s| :: s[i] in s;
  }

  lemma {:induction false} WithoutShape(s: seq<ActorId>, a: ActorId)
    requires Distinct(s)
    ensures Distinct(Without(s, a)) && forall x :: x in Without(s, a) <==> x in s && x != a
    decreases |s|
  {
    if s != [] {
      var init, last := s[..|s| - 1], s[|s| - 1];
      WithoutShape(init, a);
      assert s == init + [last] && last !in init;
      if last != a { DistinctAppend(Without(init, a), last); }
    }
  }

  lemma LastForAppend(queue: seq<Command>, c: Command, a: ActorId)
    ensures LastFor(queue + [c], a) == if c.actor == a then Some(c) else LastFor(queue, a)
  {
    assert (queue + [c])[..|queue + [c]| - 1] == queue;
  }

  lemma {:induction false} LastForPop(queue: seq<Command>, a: ActorId)
    requires queue != []
    ensures LastFor(queue, a) == if LastFor(queue[1..], a).Some? then LastFor(queue[1..], a)
                                 else if queue[0].actor == a then Some(queue[0]) else None
    decreases |queue|
  {
    if |queue| > 1 {
      LastForPop(queue[..|queue| - 1], a);
      assert queue[..|queue| - 1][1..] == queue[1..][..|queue[1..]| - 1];
    }
  }

  lemma StepKeepsListed(b: Bus, e: Event)
    requires Listed(b)
    ensures Listed(Next(b, e))
  {
    if e.Watch? && e.actor !in b.watched { DistinctAppend(b.subscribed, e.actor); }
    if e.Unwatch? { WithoutShape(b.subscribed, e.actor); }
  }

  lemma WatchKeepsTrack(b: Bus, watched: ActorId, a: ActorId)
    requires Tracks(b, a)
    ensures Tracks(Watched(b, watched), a)
  {
    hide LastFor;
    LastForAppend(b.queue, Subscribe(watched), a);
  }

  lemma UnwatchKeepsTrack(b: Bus, unwatched: ActorId, a: ActorId)
    requires Tracks(b, a)
    ensures Tracks(Unwatched(b, unwatched), a)
  {
    hide LastFor, Without;
    LastForAppend(b.queue, Unsubscribe(unwatched), a);
  }

  lemma HandleKeepsTrack(b: Bus, ok: bool, a: ActorId)
    requires b.phase.Connected? && b.queue != [] && Tracks(b, a)
    ensures Tracks(Handled(b, ok), a)
  {
    LastForPop(b.queue, a);
    hide LastFor;
  }

  /** A new session means to subscribe what is listed, which is what is watched. */
  lemma SessionKeepsTrack(b: Bus, a: ActorId)
    requires Listed(b) && Tracks(b, a)
    ensures Tracks(SessionBegun(b), a) && Tracks(Lost(b), a)
  {
    hide LastFor, Distinct;
  }

  lemma RenewKeepsTrack(b: Bus, ok: bool, a: ActorId)
    requires b.phase.Resubscribing? && Tracks(b, a)
    ensures Tracks(Resubscribed(b, ok), a)
  {
    hide LastFor;
    var remaining := b.phase.remaining;
    if remaining != [] { assert remaining == [remaining[0]] + remaining[1..]; }
  }

  lemma StepKeepsTrack(b: Bus, e: Event, a: ActorId)
    requires Listed(b) && Tracks(b, a)
    ensures Tracks(Next(b, e), a)
  {
    hide Tracks, Listed;
    match e
    case Watch(watched) => WatchKeepsTrack(b, watched, a);
    case Unwatch(unwatched) => UnwatchKeepsTrack(b, unwatched, a);
    case Begin => SessionKeepsTrack(b, a);
    case Renew(ok) => if b.phase.Resubscribing? { RenewKeepsTrack(b, ok, a); }
    case Handle(ok) => if b.phase.Connected? && b.queue != [] { HandleKeepsTrack(b, ok, a); }
    case Lose => SessionKeepsTrack(b, a);
  }

  lemma StepKeepsInv(b: Bus, e: Event)
    requires Inv(b)
    ensures Inv(Next(b, e))
  {
    hide Tracks, Listed;
    StepKeepsListed(b, e);
    forall a ensures Tracks(Next(b, e), a) { StepKeepsTrack(b, e, a); }
  }

  lemma {:induction false} RunKeepsInv(events: seq<Event>)
    ensures Inv(After(events))
    decreases |events|
  {
    if events != [] {
      RunKeepsInv(events[..|events| - 1]);
      StepKeepsInv(After(events[..|events| - 1]), events[|events| - 1]);
    }
  }

  /** Whatever happened before, a connected bus with no command queued subscribes exactly the watched
      actors, and the list it would renew holds each of them once. */
  lemma SubscriptionsConverge(events: seq<Event>)
    ensures var b := After(events);
      && (b.phase.Connected? && b.queue == [] ==> b.sink == b.watched.Keys)
      && (forall a :: a in b.subscribed <==> a in b.watched) && Distinct(b.subscribed)
  {
    RunKeepsInv(events);
    var b := After(events);
    if b.phase.Connected? && b.queue == [] {
      forall a ensures a in b.sink <==> a in b.watched.Keys { assert Tracks(b, a); }
    }
  }

  function Handles(n: nat): seq<Event> {
    seq(n, _ => Handle(true))
  }

  lemma HandlesExtend(events: seq<Event>, n: nat)
    requires n > 0
    ensures After(events + Handles(n)) == Next(After(events + Handles(n - 1)), Handle(true))
  {
    hide Next;
    var all := events + Handles(n);
    assert all[..|all| - 1] == events + Handles(n - 1);
  }

  lemma {:induction false} HandlingDrains(events: seq<Event>, n: nat)
    requires After(events).phase.Connected? && n <= |After(events).queue|
    ensures var b, b' := After(events), After(events + Handles(n));
      b'.phase.Connected? && b'.queue == b.queue[n..] && b'.watched == b.watched
    decreases n
  {
    if n == 0 {
      assert events + Handles(0) == events;
    } else {
      HandlingDrains(events, n - 1);
      HandlesExtend(events, n);
      var before := After(events + Handles(n - 1));
      hide After;
      assert Next(before, Handle(true)).queue == before.queue[1..];
    }
  }

  /** From any connected state, once Redis has accepted what is queued, the subscriptions are exactly
      the watched actors. */
  lemma QueueSettles(events: seq<Event>)
    requires After(events).phase.Connected?
    ensures After(events + Handles(|After(events).queue|)).sink == After(events).watched.Keys
  {
    HandlingDrains(events, |After(events).queue|);
    SubscriptionsConverge(events + Handles(|After(events).queue|));
  }

  // ----- watches and sessions -----

  /** How many watches of the actor are not yet undone; an unwatch without a watch undoes nothing. */
  function Balance(events: seq<Event>, a: ActorId): nat {
    if events == [] then 0
    else
      var before := Balance(events[..|events| - 1], a);
      match events[|events| - 1]
      case Watch(b) => if a == b then before + 1 else before
      case Unwatch(b) => if a == b && before > 0 then before - 1 else before
      case _ => before
  }

  /** In every run an actor is watched exactly as long as a watch of it is not undone. */
  lemma {:induction false} WatchesBalance(events: seq<Event>, a: ActorId)
    ensures var b := After(events);
      && (a in b.watched <==> Balance(events, a) > 0)
      && (a in b.watched ==> b.watched[a] == Balance(events, a))
    decreases |events|
  {
    if events != [] {
      WatchesBalance(events[..|events| - 1], a);
      hide Without;
    }
  }

  function Renews(n: nat): seq<Event> {
    seq(n, _ => Renew(true))
  }

  lemma RenewsExtend(events: seq<Event>, n: nat)
    requires n > 0
    ensures After(events + Renews(n)) == Next(After(events + Renews(n - 1)), Renew(true))
  {
    hide Next;
    var all := events + Renews(n);
    assert all[..|all| - 1] == events + Renews(n - 1);
  }

  /** The bus when `n` of the subscriptions left to renew have been. */
  function Renewed(b: Bus, n: nat): Bus
    requires b.phase.Resubscribing? && n <= |b.phase.remaining|
  {
    b.(phase := Resubscribing(b.phase.remaining[n..]), sink := b.sink + set a | a in b.phase.remaining[..n])
  }

  lemma RenewsOne(b: Bus, n: nat)
    requires b.phase.Resubscribing? && 0 < n <= |b.phase.remaining|
    ensures Next(Renewed(b, n - 1), Renew(true)) == Renewed(b, n)
  {
    var remaining := b.phase.remaining;
    assert remaining[n - 1..][1..] == remaining[n..];
    assert remaining[..n] == remaining[..n - 1] + [remaining[n - 1]];
  }

  lemma {:induction false} RenewingProceeds(events: seq<Event>, n: nat)
    requires After(events).phase.Resubscribing? && n <= |After(events).phase.remaining|
    ensures After(events + Renews(n)) == Renewed(After(events), n)
    decreases n
  {
    if n == 0 {
      assert events + Renews(0) == events;
    } else {
      RenewingProceeds(events, n - 1);
      RenewsExtend(events, n);
      hide After, Next;
      RenewsOne(After(events), n);
    }
  }

  lemma ListIsWatched(events: seq<Event>)
    ensures var b := After(events);
      (set a | a in b.subscribed) == b.watched.Keys && (b.phase.Down? ==> b.sink == {})
  {
    RunKeepsInv(events);
    hide After, Tracks;
  }

  lemma SessionBegins(events: seq<Event>)
    requires After(events).phase.Down?
    ensures var b := After(events);
      After(events + [Begin]) == b.(phase := Resubscribing(b.subscribed), sink := {})
  {
    assert (events + [Begin])[..|events + [Begin]| - 1] == events;
  }

  lemma RenewalEnds(b: Bus)
    requires b.phase.Resubscribing?
    ensures b.phase.remaining == [] ==> Next(b, Renew(true)) == b.(phase := Connected)
    ensures b.phase.remaining != [] ==> Next(b, Renew(false)) == b.(phase := Down, sink := {})
  {
  }

  /** A new session that Redis lets renew everything ends up connected and subscribed to the watched
      actors; a refused renewal ends it. */
  lemma SessionsSettle(events: seq<Event>, n: nat)
    requires After(events).phase.Down? && n <= |After(events).subscribed|
    ensures var b, begun := After(events), events + [Begin];
      && After(begun + Renews(|b.subscribed| + 1)) == b.(phase := Connected, sink := b.watched.Keys)
      && (n < |b.subscribed| ==> Next(After(begun + Renews(n)), Renew(false)) == b)
  {
    hide After, Next;
    var b, begun := After(events), events + [Begin];
    ListIsWatched(events);
    SessionBegins(events);
    RenewingProceeds(begun, |b.subscribed|);
    RenewsExtend(begun, |b.subscribed| + 1);
    RenewingProceeds(begun, n);
    assert b.subscribed[..|b.subscribed|] == b.subscribed && b.subscribed[|b.subscribed|..] == [];
    RenewalEnds(After(begun + Renews(|b.subscribed|)));
    RenewalEnds(After(begun + Renews(n)));
  }
}
