/** The mailbox and the executor connection together: an invocation starts only once every earlier
    one still running has let it, and a request is handed to the executor at most once. */
module Admission {
  import opened Wrappers
  import D = Driver
  import M = Mailbox

  /** How far a running invocation got: waiting for its command to be prepared, sent to the
      connection, at the executor under a message id, or back with something to complete it. */
  datatype Phase = Preparing | Queued | AtExecutor(message: nat) | Back(executed: bool)

  /** `granted` and `handed` record the invocations that admitted another one and the requests whose
      invocation was sent to the executor. */
  datatype System = System(
    m: M.State, d: D.State, phases: map<nat, Phase>, granted: set<nat>, handed: set<nat>)

  const Initial: System := System(M.Initial, D.Initial, map[], {}, {})

  datatype Event =
    | Receive(kind: M.Kind, valid: bool)
    | Drain
    | Admit
    | Stop
    | Dispatch(invocation: nat)
    | Skip(invocation: nat)
    | Enqueue(invocation: nat, encodable: bool)
    | EnqueueEviction(encodable: bool)
    | Grant(message: nat)
    | Reply(message: nat)
    | CallDatabase(call: Option<nat>)
    | DatabaseCalled(call: Option<nat>)
    | LoadConnections(message: nat)
    | ConnectionsLoaded(message: nat)
    | Disconnect
    | Complete(invocation: nat, prepared: M.Prepared, reply: M.Reply, publication: M.Publication,
               authority: bool, databaseStopped: bool)

  /** The command a request becomes. */
  function CommandOf(invocation: nat, kind: M.Kind): D.Command {
    D.Command(if kind.Activate? then D.Hydrate else if kind.Method? then D.Invoke else D.Websocket,
              Some(invocation), false)
  }

  predicate In(s: System, invocation: nat, phase: Phase) {
    invocation in s.phases && invocation in s.m.running && s.phases[invocation] == phase
  }

  /** Only the executor's own moves are unconstrained; the host moves as its code does. */
  predicate Enabled(s: System, e: Event) {
    match e
    case Admit => M.CanAdmit(s.m, s.d.grants)
    case Dispatch(k) => In(s, k, Preparing)
    case Skip(k) => In(s, k, Preparing)
    case Enqueue(k, _) => In(s, k, Queued)
    case Complete(k, prepared, _, _, _, _) =>
      && s.m.live
      && k in s.phases && k in s.m.running && s.phases[k].Back?
      && (s.m.running[k].kind.Activate? || (s.phases[k].executed <==> prepared.Execute?))
    case _ => true
  }

  /** After each move of its own, the mailbox starts what it can. */
  function Woken(s: System): System {
    var m := M.Readied(s.m, s.d.grants);
    s.(m := m,
       phases := if m.nextInvocation == s.m.nextInvocation then s.phases
                 else s.phases[m.nextInvocation := Preparing])
  }

  /** When the connection ends, every exchange on it fails. */
  function Disconnected(s: System): System {
    s.(d := s.d.(pending := map[], databaseIds := {}, lookupIds := {}),
       phases := map k | k in s.phases ::
         if s.phases[k].Queued? || s.phases[k].AtExecutor? then Back(true) else s.phases[k])
  }

  function Driven(s: System, effect: D.Effect): System {
    if effect.None? then Disconnected(s) else s.(d := effect.value)
  }

  /** The moves that are the mailbox's own and leave it serving. */
  predicate Decides(e: Event) {
    e.Receive? || e.Drain? || e.Admit? || e.Complete?
  }

  /** The state in which the mailbox decides what to start, after a move of its own. */
  function Deciding(s: System, e: Event): System
    requires Enabled(s, e) && Decides(e)
  {
    match e
    case Receive(kind, valid) => s.(m := M.Arrived(s.m, kind, valid))
    case Drain => s.(m := s.m.(draining := true))
    case Admit => s.(m := M.Admit(s.m, s.d.grants))
    case Complete(k, prepared, reply, publication, authority, databaseStopped) =>
      var c := M.RunRequest(k, s.m.running[k].kind, prepared, reply, publication, authority);
      s.(m := M.Settled(s.m, c, databaseStopped), phases := s.phases - {k})
  }

  function Next(s: System, e: Event): System
    requires Enabled(s, e)
  {
    match e
    case Receive(_, _) => Woken(Deciding(s, e))
    case Drain => Woken(Deciding(s, e))
    case Admit => Woken(Deciding(s, e))
    case Stop => s.(m := M.Drop(s.m))
    case Dispatch(k) =>
      s.(phases := s.phases[k := Queued],
         handed := if s.m.running[k].kind.Activate? then s.handed else s.handed + {s.m.running[k].id})
    case Skip(k) => s.(phases := s.phases[k := Back(false)])
    case Enqueue(k, encodable) =>
      var id := s.d.nextMessageId;
      var effect := D.Enqueued(s.d, CommandOf(k, s.m.running[k].kind), encodable);
      if effect.None? then Disconnected(s)
      else s.(d := effect.value, phases := s.phases[k := if encodable then AtExecutor(id) else Back(true)])
    case EnqueueEviction(encodable) =>
      Driven(s, D.Enqueued(s.d, D.Command(D.Evict, None, false), encodable))
    case Grant(id) =>
      var effect := D.Granted(s.d, id);
      if effect.None? then Disconnected(s)
      else s.(d := effect.value,
              granted := if s.d.pending[id].invocation.Some? then s.granted + {s.d.pending[id].invocation.value}
                         else s.granted)
    case Reply(id) =>
      var effect := D.Delivered(s.d, id);
      if effect.None? then Disconnected(s)
      else
        var waiting := s.d.pending[id].invocation;
        s.(d := effect.value,
           phases := if waiting.Some? then s.phases[waiting.value := Back(true)] else s.phases)
    case CallDatabase(call) => Driven(s, D.Called(s.d, call))
    case DatabaseCalled(call) => s.(d := D.Returned(s.d, call))
    case LoadConnections(id) => Driven(s, D.LookupStarted(s.d, id))
    case ConnectionsLoaded(id) => s.(d := D.LookupDone(s.d, id))
    case Disconnect => Disconnected(s)
    case Complete(_, _, _, _, _, _) => Woken(Deciding(s, e))
  }

  // ----- invariants -----

  /** Commands at the executor and invocations waiting there are two sides of one table. */
  ghost predicate Linked(s: System) {
    && s.phases.Keys == s.m.running.Keys
    && (forall id | id in s.d.pending && s.d.pending[id].invocation.Some? ::
          var k := s.d.pending[id].invocation.value;
          k in s.phases && s.phases[k] == AtExecutor(id) && (s.d.pending[id].granted <==> k in s.granted))
    && (forall id | id in s.d.pending && s.d.pending[id].invocation.None? :: s.d.pending[id].kind.Evict?)
    && (forall k | k in s.phases && s.phases[k].AtExecutor? ::
          s.phases[k].message in s.d.pending && s.d.pending[s.phases[k].message].invocation == Some(k))
    && (forall k | k in s.phases && (s.phases[k].Preparing? || s.phases[k].Queued?) :: k !in s.granted)
    && (forall k | k in s.granted :: k <= s.m.nextInvocation)
    && (forall k | k in s.phases :: k <= s.m.nextInvocation)
  }

  /** Every running invocation but the one that blocks has admitted another, and a signal the mailbox
      has yet to look at came from the one that blocks. */
  ghost predicate Exclusive(s: System) {
    && (forall k | k in s.m.running :: k in s.granted || s.m.blockedOn == Some(k))
    && (s.m.blockedOn.Some? && s.d.grants != s.m.seen ==> s.m.blockedOn.value in s.granted)
  }

  /** A request is handed over only while it runs and at most once, and one that was handed over is
      never reported as refused by an unavailable host; activations are never handed over. */
  ghost predicate Honest(s: System) {
    && (forall id | id in s.handed :: id in s.m.started)
    && (forall id | id in s.m.answers && s.m.answers[id].HostUnavailable? :: id !in s.handed)
    && (forall k | k in s.phases && k in s.m.running && (s.phases[k].Preparing? || s.phases[k] == Back(false)) ::
          s.m.running[k].id !in s.handed)
    && (forall k | k in s.m.running && s.m.running[k].kind.Activate? :: s.m.running[k].id !in s.handed)
  }

  ghost predicate Joint(s: System) {
    Linked(s) && Exclusive(s) && Honest(s)
  }

  ghost predicate Inv(s: System) {
    M.Valid(s.m) && s.d.Valid() && Joint(s)
  }

  // ----- the mailbox's own moves -----

  /** Answers, once given, stay. */
  ghost predicate Answered(m: M.State, m': M.State) {
    forall id | id in m.answers :: id in m'.answers && m'.answers[id] == m.answers[id]
  }

  predicate Refusal(outcome: M.Outcome) {
    outcome.HostUnavailable? || outcome.HostError?
  }

  /** Whoever is newly answered never started, and is refused. */
  ghost predicate Answers(m: M.State, m': M.State) {
    && Answered(m, m')
    && (forall id | id in m'.answers && id !in m.answers :: id !in m.started && Refusal(m'.answers[id]))
  }

  ghost predicate Calm(m: M.State, m': M.State) {
    && Answers(m, m')
    && m'.running == m.running && m'.blockedOn == m.blockedOn && m'.seen == m.seen
    && m'.started == m.started && m'.nextInvocation == m.nextInvocation
  }

  ghost predicate Starts(m: M.State, m': M.State, grants: nat) {
    var k := m.nextInvocation + 1;
    && Answers(m, m')
    && m.blockedOn.None? && m'.blockedOn == Some(k) && m'.nextInvocation == k && m'.seen == grants
    && k in m'.running && m'.running == m.running[k := m'.running[k]]
    && m'.running[k].id !in m.started && m'.started == m.started + [m'.running[k].id]
  }

  /** Settling answers the completed request, and otherwise at most refuses what never started. */
  ghost predicate Settles(m: M.State, m': M.State, c: M.Completion)
    requires c.id in m.running
  {
    && m'.running == m.running - {c.id} && m'.seen == m.seen && m'.started == m.started
    && m'.nextInvocation == m.nextInvocation
    && m'.blockedOn == (if m.blockedOn == Some(c.id) && m'.live then None else m.blockedOn)
    && Answered(m, m')
    && (forall id | id in m'.answers && id !in m.answers ::
          || (id !in m.started && Refusal(m'.answers[id]))
          || (id == m.running[c.id].id && (m'.answers[id].HostUnavailable? ==> c.outcome.HostUnavailable?)))
  }

  lemma HeadIsNew(m: M.State)
    requires M.Valid(m) && m.pending != []
    ensures m.pending[0].id !in m.answers && m.pending[0].id !in m.started
  {
  }

  lemma StartShape(m: M.State, grants: nat)
    requires m.blockedOn.None? && m.pending != [] && m.pending[0].id !in m.started
    ensures Starts(m, M.Start(m.(pending := m.pending[1..]), m.pending[0], grants), grants)
  {
  }

  lemma RefusedShape(m: M.State, outcome: M.Outcome)
    requires m.pending != [] && m.pending[0].id !in m.answers && m.pending[0].id !in m.started
    requires Refusal(outcome)
    ensures Calm(m, M.Finish(m.(pending := m.pending[1..]), m.pending[0], outcome))
  {
  }

  lemma CalmThen(m: M.State, m': M.State, m'': M.State, grants: nat)
    requires Calm(m, m')
    ensures Calm(m', m'') ==> Calm(m, m'')
    ensures Starts(m', m'', grants) ==> Starts(m, m'', grants)
  {
  }

  /** Waking starts at most one request, and only when nothing blocks. */
  lemma {:induction false} ReadiedShape(m: M.State, grants: nat)
    requires M.Valid(m)
    ensures Calm(m, M.Readied(m, grants)) || Starts(m, M.Readied(m, grants), grants)
    decreases |m.pending|
  {
    if m.blockedOn.None? && m.pending != [] {
      HeadIsNew(m);
      var rejected := M.Rejection(m, m.pending[0]);
      if rejected.Some? {
        var refused := M.Finish(m.(pending := m.pending[1..]), m.pending[0], rejected.value);
        M.RefusedKeepsValid(m, rejected.value);
        RefusedShape(m, rejected.value);
        ReadiedShape(refused, grants);
        CalmThen(m, refused, M.Readied(refused, grants), grants);
      } else {
        StartShape(m, grants);
      }
    } else {
      assert Calm(m, m);
    }
  }

  lemma {:induction false} DropShape(m: M.State)
    requires M.Valid(m)
    ensures Calm(m, M.Drop(m))
    decreases |m.pending|
  {
    if m.pending != [] {
      HeadIsNew(m);
      M.RefusedKeepsValid(m, M.HostUnavailable);
      DropShape(M.Finish(m.(pending := m.pending[1..]), m.pending[0], M.HostUnavailable));
    }
  }

  lemma ArrivedShape(m: M.State, kind: M.Kind, valid: bool)
    requires M.Valid(m)
    ensures Calm(m, M.Arrived(m, kind, valid))
  {
  }

  lemma SettledShape(m: M.State, c: M.Completion, databaseStopped: bool)
    requires M.Valid(m) && m.live && c.id in m.running
    ensures Settles(m, M.Settled(m, c, databaseStopped), c)
  {
    if M.RecoveryOf(m, c, databaseStopped).Stop? {
      var unknown := M.Failed("outcome_unknown");
      M.FinishedKeepsValid(m, c.id, unknown);
      var base := M.Finish(m.(running := m.running - {c.id}), m.running[c.id], unknown);
      var flagged := base.(hydrating := false, interleaved := m.interleaved || c.interleaved);
      M.FlagsKeepValid(base, flagged);
      DropShape(flagged);
    }
  }

  lemma CalmKeeps(s: System, m: M.State)
    requires Joint(s) && Calm(s.m, m)
    ensures Joint(s.(m := m))
  {
  }

  lemma StartKeeps(s: System, m: M.State)
    requires Joint(s) && Starts(s.m, m, s.d.grants)
    ensures Joint(s.(m := m, phases := s.phases[m.nextInvocation := Preparing]))
  {
    var s' := s.(m := m, phases := s.phases[m.nextInvocation := Preparing]);
    assert s'.phases.Keys == s'.m.running.Keys;
    assert m.nextInvocation !in s.phases && m.nextInvocation !in s.granted;
  }

  lemma WokenKeeps(s: System)
    requires Inv(s)
    ensures Inv(Woken(s))
  {
    M.ReadiedKeepsValid(s.m, s.d.grants);
    ReadiedShape(s.m, s.d.grants);
    var m := M.Readied(s.m, s.d.grants);
    if Calm(s.m, m) { CalmKeeps(s, m); } else { StartKeeps(s, m); }
  }

  lemma ReceiveKeeps(s: System, kind: M.Kind, valid: bool)
    requires Inv(s)
    ensures Inv(s.(m := M.Arrived(s.m, kind, valid)))
  {
    M.ArrivedKeepsValid(s.m, kind, valid);
    ArrivedShape(s.m, kind, valid);
    CalmKeeps(s, M.Arrived(s.m, kind, valid));
  }

  lemma DrainKeeps(s: System)
    requires Inv(s)
    ensures Inv(s.(m := s.m.(draining := true)))
  {
    M.FlagsKeepValid(s.m, s.m.(draining := true));
    CalmKeeps(s, s.m.(draining := true));
  }

  lemma StopKeeps(s: System)
    requires Inv(s)
    ensures Inv(s.(m := M.Drop(s.m)))
  {
    M.DropKeepsValid(s.m);
    DropShape(s.m);
    CalmKeeps(s, M.Drop(s.m));
  }

  /** A signal not yet looked at can only have come from the invocation that blocks. */
  lemma AdmitKeeps(s: System)
    requires Inv(s) && M.CanAdmit(s.m, s.d.grants)
    ensures Inv(s.(m := M.Admit(s.m, s.d.grants)))
  {
    M.FlagsKeepValid(s.m, M.Admit(s.m, s.d.grants));
  }

  lemma SettleKeeps(s: System, m: M.State, c: M.Completion)
    requires Joint(s) && c.id in s.m.running && s.phases[c.id].Back? && Settles(s.m, m, c)
    requires c.outcome.HostUnavailable? ==> s.m.running[c.id].id !in s.handed
    ensures Joint(s.(m := m, phases := s.phases - {c.id}))
  {
  }

  lemma CompleteKeeps(s: System, c: M.Completion, databaseStopped: bool)
    requires Inv(s) && s.m.live && c.id in s.m.running && s.phases[c.id].Back?
    requires c.outcome.HostUnavailable? ==> s.m.running[c.id].id !in s.handed
    ensures Inv(s.(m := M.Settled(s.m, c, databaseStopped), phases := s.phases - {c.id}))
  {
    M.SettledKeepsValid(s.m, c, databaseStopped);
    SettledShape(s.m, c, databaseStopped);
    SettleKeeps(s, M.Settled(s.m, c, databaseStopped), c);
  }

  // ----- the connection's moves -----

  lemma DisconnectKeeps(s: System)
    requires s.d.Valid() && Joint(s)
    ensures Disconnected(s).d.Valid() && Joint(Disconnected(s))
  {
  }

  /** Nothing is handed over twice. */
  lemma DispatchKeeps(s: System, k: nat)
    requires Joint(s) && In(s, k, Preparing) && s.m.running[k].id in s.m.started
    requires forall l | l in s.m.running && l != k :: s.m.running[l].id != s.m.running[k].id
    requires s.m.running[k].id !in s.m.answers
    ensures Joint(Next(s, Dispatch(k)))
    ensures s.m.running[k].id !in s.handed
  {
  }

  lemma SkipKeeps(s: System, k: nat)
    requires Joint(s) && In(s, k, Preparing)
    ensures Joint(Next(s, Skip(k)))
  {
  }

  /** Neither side's table nor the admissions change. */
  lemma QuietKeeps(s: System, d: D.State)
    requires Joint(s) && d.pending == s.d.pending && d.grants == s.d.grants
    ensures Joint(s.(d := d))
  {
  }

  lemma EnqueueLinks(s: System, k: nat, encodable: bool)
    requires s.d.Valid() && s.d.nextMessageId < U64_MAX && Linked(s) && In(s, k, Queued)
    ensures Next(s, Enqueue(k, encodable)).d.Valid() && Linked(Next(s, Enqueue(k, encodable)))
  {
    assert s.d.nextMessageId !in s.d.pending;
  }

  lemma EnqueueKeeps(s: System, k: nat, encodable: bool)
    requires s.d.Valid() && Joint(s) && In(s, k, Queued)
    ensures Next(s, Enqueue(k, encodable)).d.Valid() && Joint(Next(s, Enqueue(k, encodable)))
  {
    if s.d.nextMessageId >= U64_MAX {
      DisconnectKeeps(s);
    } else {
      EnqueueLinks(s, k, encodable);
      hide Linked;
    }
  }

  lemma EvictionLinks(s: System, encodable: bool)
    requires s.d.Valid() && s.d.nextMessageId < U64_MAX && Linked(s)
    ensures Next(s, EnqueueEviction(encodable)).d.Valid() && Linked(Next(s, EnqueueEviction(encodable)))
  {
    assert s.d.nextMessageId !in s.d.pending;
  }

  lemma EvictionKeeps(s: System, encodable: bool)
    requires s.d.Valid() && Joint(s)
    ensures Next(s, EnqueueEviction(encodable)).d.Valid() && Joint(Next(s, EnqueueEviction(encodable)))
  {
    if s.d.nextMessageId >= U64_MAX {
      DisconnectKeeps(s);
    } else {
      EvictionLinks(s, encodable);
      hide Linked;
    }
  }

  lemma GrantKeeps(s: System, id: nat)
    requires s.d.Valid() && Joint(s)
    ensures Next(s, Grant(id)).d.Valid() && Joint(Next(s, Grant(id)))
  {
    if D.Granted(s.d, id).None? { DisconnectKeeps(s); }
  }

  lemma ReplyLinks(s: System, id: nat)
    requires s.d.Valid() && D.Delivered(s.d, id).Some? && Linked(s)
    ensures Next(s, Reply(id)).d.Valid() && Linked(Next(s, Reply(id)))
  {
  }

  lemma ReplyKeeps(s: System, id: nat)
    requires s.d.Valid() && Joint(s)
    ensures Next(s, Reply(id)).d.Valid() && Joint(Next(s, Reply(id)))
  {
    if D.Delivered(s.d, id).None? {
      DisconnectKeeps(s);
    } else {
      ReplyLinks(s, id);
      hide Linked;
    }
  }

  lemma RunningOnce(m: M.State, k: nat)
    requires M.Valid(m) && k in m.running
    ensures m.running[k].id in m.started && m.running[k].id !in m.answers
    ensures forall l | l in m.running && l != k :: m.running[l].id != m.running[k].id
  {
  }

  // ----- whole runs -----

  lemma CompletionKeepsInv(s: System, e: Event)
    requires Inv(s) && Enabled(s, e) && e.Complete?
    ensures Inv(Deciding(s, e)) && Deciding(s, e).m.nextInvocation == s.m.nextInvocation
    ensures Answered(s.m, Deciding(s, e).m)
  {
    var k, kind := e.invocation, s.m.running[e.invocation].kind;
    M.ExecutedIsNeverUnavailable(k, kind, e.prepared, e.reply, e.publication, e.authority);
    var c := M.RunRequest(k, kind, e.prepared, e.reply, e.publication, e.authority);
    CompleteKeeps(s, c, e.databaseStopped);
    SettledShape(s.m, c, e.databaseStopped);
  }

  lemma DecidingKeepsInv(s: System, e: Event)
    requires Inv(s) && Enabled(s, e) && Decides(e)
    ensures Inv(Deciding(s, e)) && Deciding(s, e).m.nextInvocation == s.m.nextInvocation
    ensures Answered(s.m, Deciding(s, e).m)
  {
    match e
    case Receive(kind, valid) => ReceiveKeeps(s, kind, valid); ArrivedShape(s.m, kind, valid);
    case Drain => DrainKeeps(s);
    case Admit => AdmitKeeps(s);
    case Complete(_, _, _, _, _, _) => CompletionKeepsInv(s, e);
  }

  lemma HostKeepsInv(s: System, e: Event)
    requires Inv(s) && Enabled(s, e)
    requires Decides(e) || e.Stop?
    ensures Inv(Next(s, e))
  {
    if e.Stop? {
      StopKeeps(s);
    } else {
      DecidingKeepsInv(s, e);
      WokenKeeps(Deciding(s, e));
    }
  }

  /** Calls and lookups touch neither the table of commands nor the admissions. */
  lemma CallsKeep(s: System, e: Event)
    requires s.d.Valid() && Joint(s)
    requires e.CallDatabase? || e.DatabaseCalled? || e.LoadConnections? || e.ConnectionsLoaded?
    ensures Next(s, e).d.Valid() && Joint(Next(s, e)) && Next(s, e).m == s.m
  {
    hide Joint, Disconnected;
    DisconnectKeeps(s);
    DisconnectLeavesMailbox(s);
    match e
    case CallDatabase(call) =>
      if D.Called(s.d, call).Some? { QuietKeeps(s, D.Called(s.d, call).value); }
    case DatabaseCalled(call) => QuietKeeps(s, D.Returned(s.d, call));
    case LoadConnections(id) =>
      if D.LookupStarted(s.d, id).Some? { QuietKeeps(s, D.LookupStarted(s.d, id).value); }
    case ConnectionsLoaded(id) => QuietKeeps(s, D.LookupDone(s.d, id));
  }

  lemma DisconnectLeavesMailbox(s: System)
    ensures Disconnected(s).m == s.m
  {
  }

  lemma ExecutorKeeps(s: System, e: Event)
    requires s.d.Valid() && Joint(s) && Enabled(s, e)
    requires e.Enqueue? || e.EnqueueEviction? || e.Grant? || e.Reply? || e.Disconnect?
    ensures Next(s, e).d.Valid() && Joint(Next(s, e)) && Next(s, e).m == s.m
  {
    match e
    case Enqueue(k, encodable) => EnqueueKeeps(s, k, encodable);
    case EnqueueEviction(encodable) => EvictionKeeps(s, encodable);
    case Grant(id) => GrantKeeps(s, id);
    case Reply(id) => ReplyKeeps(s, id);
    case Disconnect => DisconnectKeeps(s);
  }

  lemma ConnectionKeepsInv(s: System, e: Event)
    requires Inv(s) && Enabled(s, e)
    requires !Decides(e) && !e.Stop?
    ensures Inv(Next(s, e)) && Next(s, e).m == s.m
  {
    match e
    case Dispatch(k) => RunningOnce(s.m, k); DispatchKeeps(s, k);
    case Skip(k) => SkipKeeps(s, k);
    case Enqueue(_, _) => ExecutorKeeps(s, e);
    case EnqueueEviction(_) => ExecutorKeeps(s, e);
    case Grant(_) => ExecutorKeeps(s, e);
    case Reply(_) => ExecutorKeeps(s, e);
    case Disconnect => ExecutorKeeps(s, e);
    case _ => CallsKeep(s, e);
  }

  lemma StepKeepsInv(s: System, e: Event)
    requires Inv(s) && Enabled(s, e)
    ensures Inv(Next(s, e))
  {
    if Decides(e) || e.Stop? {
      HostKeepsInv(s, e);
    } else {
      ConnectionKeepsInv(s, e);
    }
  }

  /** The state after any interleaving whatsoever; a move that is not possible does nothing. */
  ghost function After(events: seq<Event>): System
    decreases |events|
  {
    if events == [] then Initial
    else
      var s, e := After(events[..|events| - 1]), events[|events| - 1];
      if Enabled(s, e) then Next(s, e) else s
  }

  lemma {:induction false} RunKeepsInv(events: seq<Event>)
    ensures Inv(After(events))
    decreases |events|
  {
    if events != [] {
      var s, e := After(events[..|events| - 1]), events[|events| - 1];
      RunKeepsInv(events[..|events| - 1]);
      if Enabled(s, e) { StepKeepsInv(s, e); }
    }
  }

  /** At any moment at most one running invocation has not admitted another, and it is the one the
      mailbox waits for. */
  lemma OneInvocationUnlessAdmitted(events: seq<Event>)
    ensures var s := After(events);
      && (forall k, l | k in s.m.running && l in s.m.running && k != l :: k in s.granted || l in s.granted)
      && (s.m.blockedOn.None? ==> forall k | k in s.m.running :: k in s.granted)
  {
    RunKeepsInv(events);
  }

  /** Whenever a move starts an invocation, it is one new invocation, and every other one then
      running has admitted it. */
  lemma StartsNeedAdmission(events: seq<Event>, e: Event)
    requires Enabled(After(events), e)
    ensures var s, s' := After(events), Next(After(events), e);
      && s.m.nextInvocation <= s'.m.nextInvocation <= s.m.nextInvocation + 1
      && (s'.m.nextInvocation != s.m.nextInvocation ==>
            && s'.m.nextInvocation in s'.m.running
            && (forall k | k in s'.m.running && k != s'.m.nextInvocation :: k in s.granted))
  {
    var s := After(events);
    RunKeepsInv(events);
    StepKeepsInv(s, e);
    hide After, M.Readied;
    if Decides(e) {
      DecidingKeepsInv(s, e);
      var mid := Deciding(s, e);
      ReadiedShape(mid.m, mid.d.grants);
    } else if e.Stop? {
    } else {
      ConnectionKeepsInv(s, e);
    }
  }

  lemma {:induction false} ReadiedWhileDraining(m: M.State, grants: nat)
    requires m.draining
    ensures var m' := M.Readied(m, grants);
      m'.nextInvocation != m.nextInvocation ==>
        m'.nextInvocation in m'.running && m'.running[m'.nextInvocation].kind == M.Socket(true)
    decreases |m.pending|
  {
    if m.blockedOn.None? && m.pending != [] {
      var rejected := M.Rejection(m, m.pending[0]);
      if rejected.Some? {
        ReadiedWhileDraining(M.Finish(m.(pending := m.pending[1..]), m.pending[0], rejected.value), grants);
      }
    }
  }

  /** A draining mailbox starts nothing any more but the disconnects of its sockets. */
  lemma DrainingStartsOnlyDisconnects(events: seq<Event>, e: Event)
    requires Enabled(After(events), e) && (After(events).m.draining || e.Drain?)
    ensures var s, s' := After(events), Next(After(events), e);
      && s'.m.draining
      && (s'.m.nextInvocation != s.m.nextInvocation ==>
            s'.m.nextInvocation in s'.m.running && s'.m.running[s'.m.nextInvocation].kind == M.Socket(true))
  {
    hide Inv;
    var s := After(events);
    RunKeepsInv(events);
    if Decides(e) {
      DecidingKeepsInv(s, e);
      var mid := Deciding(s, e);
      ReadiedWhileDraining(mid.m, mid.d.grants);
      ReadiedKeepsFlags(mid.m, mid.d.grants);
    } else if !e.Stop? {
      ConnectionKeepsInv(s, e);
    }
  }

  lemma {:induction false} ReadiedKeepsFlags(m: M.State, grants: nat)
    ensures var m' := M.Readied(m, grants);
      m'.draining == m.draining && m'.live == m.live && m'.interleaved == m.interleaved && m'.received == m.received
    decreases |m.pending|
  {
    if m.blockedOn.None? && m.pending != [] {
      var rejected := M.Rejection(m, m.pending[0]);
      if rejected.Some? {
        ReadiedKeepsFlags(M.Finish(m.(pending := m.pending[1..]), m.pending[0], rejected.value), grants);
      }
    }
  }

  /** A request the host calls itself unavailable for never reached the executor, and a request is
      handed to the executor at most once. */
  lemma UnavailableMeansNotHanded(events: seq<Event>, id: nat)
    ensures var s := After(events);
      && (id in s.m.answers && s.m.answers[id].HostUnavailable? ==> id !in s.handed)
      && (forall k | Enabled(s, Dispatch(k)) && s.m.running[k].id == id :: id !in s.handed)
  {
    RunKeepsInv(events);
  }

  /** Every request received is in exactly one of the queue, the running set and the answers;
      requests start in the order of arrival, ahead of all that still wait. Once the mailbox is gone,
      every caller has learned something. */
  lemma OneFatePerRequest(events: seq<Event>, id: nat)
    ensures var m := After(events).m;
      && (id < m.received <==> M.Waits(m, id) || M.Runs(m, id) || id in m.answers)
      && !(M.Waits(m, id) && M.Runs(m, id))
      && !(id in m.answers && (M.Waits(m, id) || M.Runs(m, id)))
      && M.Increasing(m.started)
      && (M.Waits(m, id) ==> forall i | 0 <= i < |m.started| :: m.started[i] < id)
      && (!m.live && id < m.received ==> M.Learned(m, id).Some?)
  {
    RunKeepsInv(events);
    var m := After(events).m;
    assert forall i | 0 <= i < |m.started| :: m.started[i] in m.started;
  }

  lemma StepKeepsAnswers(s: System, e: Event)
    requires Inv(s) && Enabled(s, e)
    ensures Answered(s.m, Next(s, e).m)
  {
    if e.Stop? {
      DropShape(s.m);
    } else if Decides(e) {
      DecidingKeepsInv(s, e);
      var mid := Deciding(s, e);
      ReadiedShape(mid.m, mid.d.grants);
    } else {
      ConnectionKeepsInv(s, e);
    }
  }

  lemma AfterExtends(events: seq<Event>, e: Event)
    ensures After(events + [e]) == if Enabled(After(events), e) then Next(After(events), e) else After(events)
  {
    hide Next, Enabled;
    assert (events + [e])[..|events + [e]| - 1] == events;
  }

  /** No request is ever answered twice. */
  lemma {:induction false} AnswersArePermanent(events: seq<Event>, more: seq<Event>)
    ensures Answered(After(events).m, After(events + more).m)
    decreases |more|
  {
    hide Next, Inv, Enabled, After;
    if more == [] {
      assert events + more == events;
    } else {
      var init, e := more[..|more| - 1], more[|more| - 1];
      AnswersArePermanent(events, init);
      assert events + more == events + init + [e];
      AfterExtends(events + init, e);
      RunKeepsInv(events + init);
      if Enabled(After(events + init), e) { StepKeepsAnswers(After(events + init), e); }
    }
  }
}
