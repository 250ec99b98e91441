/** The executor's database calls and connection lookups: a command can be answered exactly when all
    that it asked for has come back. */
module Calls {
  import opened Wrappers
  import D = Driver
  import M = Mailbox
  import opened Admission

  /** The i-th move of the run asks the database on behalf of an awaited command. */
  ghost predicate AsksAt(events: seq<Event>, i: int, id: nat) {
    && 0 <= i < |events| && events[i] == CallDatabase(Some(id)) && id in After(events[..i]).d.pending
  }

  ghost predicate LooksUpAt(events: seq<Event>, i: int, id: nat) {
    && 0 <= i < |events| && events[i] == LoadConnections(id) && id in After(events[..i]).d.pending
  }

  /** A database call made for the command has not come back. */
  ghost predicate Asking(events: seq<Event>, id: nat) {
    exists i :: AsksAt(events, i, id) && forall j | i < j < |events| :: events[j] != DatabaseCalled(Some(id))
  }

  ghost predicate LookingUp(events: seq<Event>, id: nat) {
    exists i :: LooksUpAt(events, i, id) && forall j | i < j < |events| :: events[j] != ConnectionsLoaded(id)
  }

  // ----- one move -----

  /** A command still awaited was awaited before or has just been sent under a new id. */
  lemma StepCalls(s: System, e: Event, id: nat)
    requires s.d.Valid() && Enabled(s, e) && id in Next(s, e).d.pending
    ensures id in s.d.pending || (id == s.d.nextMessageId && (e.Enqueue? || e.EnqueueEviction?))
    ensures id in Next(s, e).d.databaseIds <==>
              (id in s.d.databaseIds || e == CallDatabase(Some(id))) && e != DatabaseCalled(Some(id))
    ensures id in Next(s, e).d.lookupIds <==>
              (id in s.d.lookupIds || e == LoadConnections(id)) && e != ConnectionsLoaded(id)
  {
    hide M.Readied, M.Settled, M.Arrived, M.Drop;
  }

  lemma StepNumbers(s: System, e: Event)
    requires Enabled(s, e)
    ensures s.d.nextMessageId <= Next(s, e).d.nextMessageId
  {
    hide M.Readied, M.Settled, M.Arrived, M.Drop;
  }

  // ----- whole runs -----

  lemma {:induction false} NumbersGrow(events: seq<Event>, i: nat)
    requires i <= |events|
    ensures After(events[..i]).d.nextMessageId <= After(events).d.nextMessageId
    decreases |events|
  {
    hide Next, Enabled;
    if i == |events| {
      assert events[..i] == events;
    } else {
      var init, e := events[..|events| - 1], events[|events| - 1];
      NumbersGrow(init, i);
      assert init[..i] == events[..i];
      if Enabled(After(init), e) { StepNumbers(After(init), e); }
    }
  }

  /** Nobody asked on behalf of a command not yet sent. */
  lemma NotYetSent(events: seq<Event>, i: int, id: nat)
    requires id >= After(events).d.nextMessageId
    ensures !AsksAt(events, i, id) && !LooksUpAt(events, i, id)
  {
    if 0 <= i < |events| {
      NumbersGrow(events, i);
      RunKeepsInv(events[..i]);
      hide After, Joint;
    }
  }

  lemma EarlierCalls(events: seq<Event>, e: Event, i: int, id: nat)
    ensures AsksAt(events + [e], i, id) <==>
      if i == |events| then e == CallDatabase(Some(id)) && id in After(events).d.pending else AsksAt(events, i, id)
    ensures LooksUpAt(events + [e], i, id) <==>
      if i == |events| then e == LoadConnections(id) && id in After(events).d.pending else LooksUpAt(events, i, id)
  {
    hide After;
    if 0 <= i <= |events| { assert (events + [e])[..i] == events[..i]; }
    assert events[..|events|] == events;
  }

  lemma AskingStep(events: seq<Event>, e: Event, id: nat)
    ensures Asking(events + [e], id) <==>
      && (Asking(events, id) || (e == CallDatabase(Some(id)) && id in After(events).d.pending))
      && e != DatabaseCalled(Some(id))
  {
    hide After, AsksAt;
    var n := |events|;
    forall i ensures AsksAt(events + [e], i, id) <==>
      if i == n then e == CallDatabase(Some(id)) && id in After(events).d.pending else AsksAt(events, i, id)
    {
      EarlierCalls(events, e, i, id);
    }
    AskedWithin(events, e, id);
    assert forall j | 0 <= j < n :: (events + [e])[j] == events[j];
    assert (events + [e])[n] == e;
    if Asking(events, id) && e != DatabaseCalled(Some(id)) {
      var i :| AsksAt(events, i, id) && forall j | i < j < n :: events[j] != DatabaseCalled(Some(id));
      assert AsksAt(events + [e], i, id);
    }
    if e == CallDatabase(Some(id)) && id in After(events).d.pending { assert AsksAt(events + [e], n, id); }
  }

  lemma AskedWithin(events: seq<Event>, e: Event, id: nat)
    ensures !AsksAt(events, |events|, id) && !LooksUpAt(events, |events|, id)
    ensures forall i | AsksAt(events + [e], i, id) :: 0 <= i <= |events|
    ensures forall i | LooksUpAt(events + [e], i, id) :: 0 <= i <= |events|
    ensures forall i | AsksAt(events, i, id) || LooksUpAt(events, i, id) :: 0 <= i < |events|
  {
  }

  lemma LookingUpStep(events: seq<Event>, e: Event, id: nat)
    ensures LookingUp(events + [e], id) <==>
      && (LookingUp(events, id) || (e == LoadConnections(id) && id in After(events).d.pending))
      && e != ConnectionsLoaded(id)
  {
    hide After, LooksUpAt;
    var n := |events|;
    forall i ensures LooksUpAt(events + [e], i, id) <==>
      if i == n then e == LoadConnections(id) && id in After(events).d.pending else LooksUpAt(events, i, id)
    {
      EarlierCalls(events, e, i, id);
    }
    AskedWithin(events, e, id);
    assert forall j | 0 <= j < n :: (events + [e])[j] == events[j];
    assert (events + [e])[n] == e;
    if LookingUp(events, id) && e != ConnectionsLoaded(id) {
      var i :| LooksUpAt(events, i, id) && forall j | i < j < n :: events[j] != ConnectionsLoaded(id);
      assert LooksUpAt(events + [e], i, id);
    }
    if e == LoadConnections(id) && id in After(events).d.pending { assert LooksUpAt(events + [e], n, id); }
  }

  /** For a command still awaited, the connection remembers exactly the call and the lookup that have
      not come back. */
  lemma {:induction false} OutstandingExactly(events: seq<Event>, id: nat)
    requires id in After(events).d.pending
    ensures id in After(events).d.databaseIds <==> Asking(events, id)
    ensures id in After(events).d.lookupIds <==> LookingUp(events, id)
    decreases |events|
  {
    hide Next, Enabled, Asking, LookingUp;
    var init, e := events[..|events| - 1], events[|events| - 1];
    var s := After(init);
    assert events == init + [e];
    AskingStep(init, e, id);
    LookingUpStep(init, e, id);
    RunKeepsInv(init);
    DriverIsValid(s);
    hide Inv;
    if Enabled(s, e) { StepCalls(s, e, id); } else { AlwaysCalls(s, e); }
    if id in s.d.pending { OutstandingExactly(init, id); } else { UnsentAsksNothing(init, id); }
  }

  lemma DriverIsValid(s: System)
    requires Inv(s)
    ensures s.d.Valid()
  {
  }

  lemma AlwaysCalls(s: System, e: Event)
    requires !Enabled(s, e)
    ensures !e.CallDatabase? && !e.DatabaseCalled? && !e.LoadConnections? && !e.ConnectionsLoaded?
  {
  }

  lemma UnsentAsksNothing(events: seq<Event>, id: nat)
    requires id >= After(events).d.nextMessageId
    ensures !Asking(events, id) && !LookingUp(events, id)
  {
    hide After, AsksAt, LooksUpAt;
    forall i ensures !AsksAt(events, i, id) && !LooksUpAt(events, i, id) {
      NotYetSent(events, i, id);
    }
  }

  // ----- what the executor may say -----

  /** Every exchange on the connection has failed, and nothing else has changed. */
  ghost predicate Severed(s: System, s': System) {
    && s'.m == s.m && s'.granted == s.granted && s'.handed == s.handed
    && s'.d == D.State(map[], s.d.nextMessageId, {}, {}, s.d.grants)
    && s'.phases.Keys == s.phases.Keys
    && forall k | k in s.phases ::
         s'.phases[k] == if s.phases[k].Queued? || s.phases[k].AtExecutor? then Back(true) else s.phases[k]
  }

  /** The executor breaks the protocol: it answers or admits for a command that is not awaited, answers
      while something it asked for is outstanding, asks twice at once, or admits twice. */
  ghost predicate Breaks(events: seq<Event>, e: Event) {
    var pending := After(events).d.pending;
    match e
    case Reply(id) => id !in pending || Asking(events, id) || LookingUp(events, id)
    case Grant(id) => id !in pending || !(pending[id].kind.Invoke? || pending[id].kind.Websocket?) || pending[id].granted
    case CallDatabase(call) => call.Some? && call.value in pending && Asking(events, call.value)
    case LoadConnections(id) => id !in pending || pending[id].kind.Evict? || LookingUp(events, id)
    case _ => e.Disconnect?
  }

  /** What a message that keeps the protocol does: a reply completes the invocation that awaits it and
      no other, and an admission counts once, for the invocation that sent it. */
  ghost predicate Proceeds(s: System, e: Event, s': System) {
    && s'.m == s.m && s'.handed == s.handed && s'.d.nextMessageId == s.d.nextMessageId
    && match e
       case Reply(id) =>
         && id in s.d.pending && s'.d.pending == s.d.pending - {id}
         && s'.d.grants == s.d.grants && s'.granted == s.granted
         && s'.phases == (match s.d.pending[id].invocation
                          case Some(k) => s.phases[k := Back(true)]
                          case None => s.phases)
       case Grant(id) =>
         && id in s.d.pending && s'.phases == s.phases && s'.d.grants == s.d.grants + 1
         && s'.d.pending == s.d.pending[id := s.d.pending[id].(granted := true)]
         && s'.granted == (match s.d.pending[id].invocation
                           case Some(k) => s.granted + {k}
                           case None => s.granted)
       case _ =>
         && s'.phases == s.phases && s'.granted == s.granted
         && s'.d.pending == s.d.pending && s'.d.grants == s.d.grants
  }

  /** The same breach, by what the connection remembers. */
  predicate Breach(s: System, e: Event) {
    var pending := s.d.pending;
    match e
    case Reply(id) => id !in pending || id in s.d.databaseIds || id in s.d.lookupIds
    case Grant(id) => id !in pending || !(pending[id].kind.Invoke? || pending[id].kind.Websocket?) || pending[id].granted
    case CallDatabase(call) => call.Some? && call.value in pending && call.value in s.d.databaseIds
    case LoadConnections(id) => id !in pending || pending[id].kind.Evict? || id in s.d.lookupIds
    case _ => e.Disconnect?
  }

  predicate FromPeer(e: Event) {
    e.Reply? || e.Grant? || e.CallDatabase? || e.LoadConnections? || e.Disconnect?
  }

  lemma PeerMoves(s: System, e: Event)
    requires FromPeer(e)
    ensures if Breach(s, e) then Severed(s, Next(s, e)) else Proceeds(s, e, Next(s, e))
  {
    SeveredBy(s);
    hide Severed, Disconnected;
  }

  lemma SeveredBy(s: System)
    ensures Severed(s, Disconnected(s))
  {
  }

  lemma BreaksByMemory(events: seq<Event>, e: Event)
    ensures Breaks(events, e) <==> Breach(After(events), e)
  {
    hide After, Asking, LookingUp;
    var s := After(events);
    forall id | id in s.d.pending
      ensures id in s.d.databaseIds <==> Asking(events, id)
      ensures id in s.d.lookupIds <==> LookingUp(events, id)
    {
      OutstandingExactly(events, id);
    }
  }

  /** A message from the executor that breaks the protocol ends the connection, and any other has its
      effect and no more. */
  lemma PeerMovesExactly(events: seq<Event>, e: Event)
    requires FromPeer(e)
    ensures Breaks(events, e) ==> Severed(After(events), Next(After(events), e))
    ensures !Breaks(events, e) ==> Proceeds(After(events), e, Next(After(events), e))
  {
    hide After, Breaks, Breach, Severed, Proceeds;
    BreaksByMemory(events, e);
    PeerMoves(After(events), e);
  }

  // ----- what is sent to the executor -----

  /** Commands are sent by invocations that are ready to and when the actor's memory is to be dropped. */
  predicate Sends(s: System, e: Event) {
    Enabled(s, e) && (e.Enqueue? || e.EnqueueEviction?)
  }

  predicate Exhausted(s: System) {
    s.d.nextMessageId >= U64_MAX
  }

  /** The command that is sent: what the request asks for, on behalf of its invocation, not admitted yet. */
  function Sent(s: System, e: Event): D.Command
    requires Sends(s, e)
  {
    match e
    case Enqueue(k, _) =>
      (match s.m.running[k].kind
       case Activate => D.Command(D.Hydrate, Some(k), false)
       case Method => D.Command(D.Invoke, Some(k), false)
       case Socket(_) => D.Command(D.Websocket, Some(k), false))
    case _ => D.Command(D.Evict, None, false)
  }

  /** A command goes out under an id of its own and is awaited from then on; one that cannot be encoded
      uses its id up and fails; with no id left the connection ends. */
  lemma SendsExactly(events: seq<Event>, e: Event)
    requires Sends(After(events), e)
    ensures var s, s' := After(events), Next(After(events), e);
      if Exhausted(s) then Severed(s, s')
      else
        var id := s.d.nextMessageId;
        && id !in s.d.pending && s'.d.nextMessageId == id + 1
        && s'.m == s.m && s'.granted == s.granted && s'.handed == s.handed && s'.d.grants == s.d.grants
        && s'.d.pending == (if e.encodable then s.d.pending[id := Sent(s, e)] else s.d.pending)
        && s'.phases == (if e.Enqueue? then s.phases[e.invocation := if e.encodable then AtExecutor(id) else Back(true)]
                         else s.phases)
  {
    var s := After(events);
    RunKeepsInv(events);
    DriverIsValid(s);
    hide Inv, After;
    if Exhausted(s) {
      SeveredBy(s);
      hide Severed, Disconnected;
    } else {
      SendsFrom(s, e);
      hide Next, Sent, Sends;
    }
  }

  lemma SendsFrom(s: System, e: Event)
    requires s.d.Valid() && Sends(s, e) && !Exhausted(s)
    ensures var s', id := Next(s, e), s.d.nextMessageId;
      && id !in s.d.pending && s'.d.nextMessageId == id + 1
      && s'.m == s.m && s'.granted == s.granted && s'.handed == s.handed && s'.d.grants == s.d.grants
      && s'.d.pending == (if e.encodable then s.d.pending[id := Sent(s, e)] else s.d.pending)
      && s'.phases == (if e.Enqueue? then s.phases[e.invocation := if e.encodable then AtExecutor(id) else Back(true)]
                       else s.phases)
  {
    assert s.d.nextMessageId !in s.d.pending;
    hide D.State.Valid, Disconnected;
  }

  /** No message id is ever given out twice. */
  lemma IdsAreFresh(events: seq<Event>, i: nat, j: nat)
    requires i < j <= |events| && Sends(After(events[..i]), events[i]) && !Exhausted(After(events[..i]))
    ensures After(events[..i]).d.nextMessageId < After(events[..j]).d.nextMessageId
  {
    assert events[..i + 1] == events[..i] + [events[i]];
    AfterExtends(events[..i], events[i]);
    SendsExactly(events[..i], events[i]);
    assert events[..j][..i + 1] == events[..i + 1];
    NumbersGrow(events[..j], i + 1);
  }
}
