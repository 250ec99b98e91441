/** One actor's mailbox: requests wait in order, one invocation runs at a time unless the running
    one admits another, and every request is answered once. */
module Mailbox {
  import opened Wrappers

  datatype Kind = Activate | Method | Socket(disconnect: bool)

  /** `id` numbers requests in the order they arrive. */
  datatype Request = Request(id: nat, kind: Kind, valid: bool)

  /** What a caller is told. `HostError` stands for the error results. */
  datatype Outcome = Completed | Failed(code: string) | HostUnavailable | HostError

  datatype Recovery = Keep | Evict | Reset | Stop

  datatype Completion = Completion(
    id: nat, outcome: Outcome, interleaved: bool, recovery: Recovery, failureCode: Option<string>, executed: bool)

  /** `seen` is the admission signal last looked at; `received`, `started` and `answers` record what
      happened so far. */
  datatype State = State(
    pending: seq<Request>, running: map<nat, Request>, nextInvocation: nat, blockedOn: Option<nat>,
    interleaved: bool, hydrating: bool, draining: bool, seen: nat, live: bool,
    received: nat, started: seq<nat>, answers: map<nat, Outcome>)

  const Initial: State := State([], map[], 0, None, false, false, false, 0, true, 0, [], map[])

  // ----- single moves -----

  function Finish(m: State, r: Request, outcome: Outcome): State {
    m.(answers := m.answers[r.id := outcome])
  }

  function Rejection(m: State, r: Request): Option<Outcome> {
    if m.draining && r.kind != Socket(true) then Some(HostUnavailable)
    else if !r.valid then Some(HostError)
    else None
  }

  /** A request that reaches a stopped mailbox is refused by its sender. */
  function Arrived(m: State, kind: Kind, valid: bool): State {
    var r := Request(m.received, kind, valid);
    var m := m.(received := m.received + 1);
    if !m.live then Finish(m, r, HostUnavailable)
    else
      var rejected := Rejection(m, r);
      if rejected.Some? then Finish(m, r, rejected.value) else m.(pending := m.pending + [r])
  }

  function Start(m: State, r: Request, grants: nat): State {
    var id := m.nextInvocation + 1;
    m.(seen := grants, nextInvocation := id, blockedOn := Some(id), hydrating := r.kind.Activate?,
       running := m.running[id := r], started := m.started + [r.id])
  }

  function Readied(m: State, grants: nat): State
    decreases |m.pending|
  {
    if m.blockedOn.Some? || m.pending == [] then m
    else
      var r := m.pending[0];
      var popped := m.(pending := m.pending[1..]);
      var rejected := Rejection(m, r);
      if rejected.Some? then Readied(Finish(popped, r, rejected.value), grants)
      else Start(popped, r, grants)
  }

  /** The admission signal is only listened to while an invocation other than a hydration blocks. */
  predicate CanAdmit(m: State, grants: nat) {
    m.live && m.blockedOn.Some? && !m.hydrating && grants != m.seen
  }

  function Admit(m: State, grants: nat): State {
    m.(seen := grants, interleaved := true, blockedOn := None)
  }

  function AnswerAll(answers: map<nat, Outcome>, rs: seq<Request>, outcome: Outcome): map<nat, Outcome>
    decreases rs
  {
    if rs == [] then answers else AnswerAll(answers[rs[0].id := outcome], rs[1..], outcome)
  }

  /** Dropping the mailbox refuses what still waits and abandons what runs. */
  function Drop(m: State): State {
    m.(live := false, pending := [], answers := AnswerAll(m.answers, m.pending, HostUnavailable))
  }

  /** What the caller of a request learns, once there is something to learn: when the mailbox is gone,
      the outcome of an abandoned request is unknown. */
  function Learned(m: State, id: nat): Option<Outcome> {
    if id in m.answers then Some(m.answers[id])
    else if !m.live && (exists k | k in m.running :: m.running[k].id == id) then Some(Failed("outcome_unknown"))
    else None
  }

  predicate Expected(code: Option<string>) {
    && code.Some?
    && code.value in {"actor_method_failed", "actor_socket_failed", "method_not_found", "method_not_callable"}
  }

  function RecoveryOf(m: State, c: Completion, databaseStopped: bool): Recovery {
    var unexpected := c.executed && m.interleaved && !c.interleaved && !Expected(c.failureCode);
    var interleavingFailed := c.interleaved && !c.outcome.Completed?;
    if unexpected || interleavingFailed || databaseStopped then Stop else c.recovery
  }

  /** The invocation is no longer running. */
  function Released(m: State, c: Completion): State {
    m.(running := m.running - {c.id}, hydrating := false, interleaved := m.interleaved || c.interleaved)
  }

  function Settled(m: State, c: Completion, databaseStopped: bool): State
    requires c.id in m.running
  {
    var r := m.running[c.id];
    var after := Released(m, c);
    if RecoveryOf(m, c, databaseStopped).Stop? then Drop(Finish(after, r, Failed("outcome_unknown")))
    else
      Finish(after.(blockedOn := if m.blockedOn == Some(c.id) then None else m.blockedOn), r, c.outcome)
  }

  // ----- the mailbox task -----

  class Actor {
    var pending: seq<Request>
    var running: map<nat, Request>
    var nextInvocation: nat
    var blockedOn: Option<nat>
    var interleaved: bool
    var hydrating: bool
    var draining: bool
    var seen: nat
    var live: bool
    var received: nat
    var answers: map<nat, Outcome>
    ghost var started: seq<nat>

    ghost function View(): State
      reads this
    {
      State(pending, running, nextInvocation, blockedOn, interleaved, hydrating, draining, seen, live,
            received, started, answers)
    }

    constructor ()
      ensures View() == Initial
    {
      pending, running, nextInvocation, blockedOn := [], map[], 0, None;
      interleaved, hydrating, draining, seen, live := false, false, false, 0, true;
      received, answers, started := 0, map[], [];
    }

    method Reject(r: Request) returns (o: Option<Outcome>)
      ensures o == Rejection(View(), r)
    {
      if draining && r.kind != Socket(true) { return Some(HostUnavailable); }
      if !r.valid { return Some(HostError); }
      return None;
    }

    method Answer(r: Request, outcome: Outcome)
      modifies this`answers
      ensures View() == Finish(old(View()), r, outcome)
    {
      answers := answers[r.id := outcome];
    }

    method Receive(kind: Kind, valid: bool)
      modifies this
      ensures View() == Arrived(old(View()), kind, valid)
    {
      var r := Request(received, kind, valid);
      received := received + 1;
      if !live { Answer(r, HostUnavailable); return; }
      var rejected := Reject(r);
      if rejected.Some? {
        Answer(r, rejected.value);
      } else {
        pending := pending + [r];
      }
    }

    method Launch(r: Request, grants: nat)
      modifies this
      ensures View() == Start(old(View()), r, grants)
    {
      seen := grants;
      nextInvocation := nextInvocation + 1;
      blockedOn := Some(nextInvocation);
      hydrating := r.kind.Activate?;
      running := running[nextInvocation := r];
      started := started + [r.id];
    }

    method StartReady(grants: nat)
      modifies this
      ensures View() == Readied(old(View()), grants)
    {
      while blockedOn.None? && pending != []
        invariant Readied(View(), grants) == Readied(old(View()), grants)
        decreases blockedOn.None?, |pending|
      {
        var r := pending[0];
        var rejected := Reject(r);
        pending := pending[1..];
        if rejected.Some? {
          Answer(r, rejected.value);
        } else {
          Launch(r, grants);
        }
      }
    }

    method Admitted(grants: nat)
      requires CanAdmit(View(), grants)
      modifies this
      ensures View() == Admit(old(View()), grants)
    {
      seen, interleaved, blockedOn := grants, true, None;
    }

    method Dropped()
      modifies this
      ensures View() == Drop(old(View()))
    {
      live := false;
      while pending != []
        invariant View() == old(View()).(live := false, pending := pending, answers := answers)
        invariant AnswerAll(answers, pending, HostUnavailable) == AnswerAll(old(answers), old(pending), HostUnavailable)
        decreases |pending|
      {
        answers := answers[pending[0].id := HostUnavailable];
        pending := pending[1..];
      }
    }

    method Release(c: Completion)
      modifies this
      ensures View() == Released(old(View()), c)
      ensures blockedOn == old(blockedOn)
    {
      hydrating, running := false, running - {c.id};
      interleaved := interleaved || c.interleaved;
    }

    method Executed(c: Completion, databaseStopped: bool) returns (continues: bool)
      requires live && c.id in running
      modifies this
      ensures View() == Settled(old(View()), c, databaseStopped)
      ensures continues <==> !RecoveryOf(old(View()), c, databaseStopped).Stop?
    {
      hide Drop, Released, Expected, Finish;
      var unexpected := c.executed && interleaved && !c.interleaved && !Expected(c.failureCode);
      var interleavingFailed := c.interleaved && !c.outcome.Completed?;
      continues := !(unexpected || interleavingFailed || databaseStopped || c.recovery.Stop?);
      var r, unblocked := running[c.id], blockedOn == Some(c.id);
      Release(c);
      if !continues {
        Answer(r, Failed("outcome_unknown"));
        Dropped();
      } else {
        if unblocked { blockedOn := None; }
        Answer(r, c.outcome);
      }
    }
  }

  // ----- every request has exactly one fate, and starts keep the order of arrival -----

  ghost predicate Increasing(s: seq<nat>) {
    forall i, j | 0 <= i < j < |s| :: s[i] < s[j]
  }

  ghost predicate Waits(m: State, id: nat) {
    exists i | 0 <= i < |m.pending| :: m.pending[i].id == id
  }

  ghost predicate Runs(m: State, id: nat) {
    exists k | k in m.running :: m.running[k].id == id
  }

  /** Waiting, running and answered requests share none and together are all that were received. */
  ghost predicate Partitioned(m: State) {
    && (forall id: nat | id < m.received :: Waits(m, id) || Runs(m, id) || id in m.answers)
    && (forall id | id in m.answers :: id < m.received)
    && (forall i | 0 <= i < |m.pending| :: m.pending[i].id < m.received && m.pending[i].id !in m.answers)
    && (forall k | k in m.running :: m.running[k].id < m.received && m.running[k].id !in m.answers)
    && (forall k, l | k in m.running && l in m.running && k != l :: m.running[k].id != m.running[l].id)
  }

  /** Requests start in the order they came, and everything still waiting came after all of them. */
  ghost predicate Ordered(m: State) {
    && Increasing(m.started)
    && (forall i, j | 0 <= i < j < |m.pending| :: m.pending[i].id < m.pending[j].id)
    && (forall id, i | id in m.started && 0 <= i < |m.pending| :: id < m.pending[i].id)
    && (forall id | id in m.started :: id < m.received)
    && (forall k | k in m.running :: 0 < k <= m.nextInvocation && m.running[k].id in m.started)
    && (m.blockedOn.Some? ==> m.blockedOn.value <= m.nextInvocation)
  }

  ghost predicate Valid(m: State) {
    Partitioned(m) && Ordered(m) && (!m.live ==> m.pending == [])
  }

  lemma QueuedKeepsPartition(m: State, r: Request)
    requires Partitioned(m) && r.id == m.received
    ensures Partitioned(m.(received := m.received + 1, pending := m.pending + [r]))
  {
    var m' := m.(received := m.received + 1, pending := m.pending + [r]);
    forall id: nat | id < m'.received ensures Waits(m', id) || Runs(m', id) || id in m'.answers {
      if id == m.received {
        assert m'.pending[|m.pending|].id == id;
      } else if Waits(m, id) {
        var i :| 0 <= i < |m.pending| && m.pending[i].id == id;
        assert m'.pending[i].id == id;
      } else if Runs(m, id) {
        var k :| k in m.running && m.running[k].id == id;
        assert m'.running[k].id == id;
      }
    }
  }

  lemma QueuedKeepsOrder(m: State, r: Request)
    requires Ordered(m) && r.id == m.received
    requires forall i | 0 <= i < |m.pending| :: m.pending[i].id < m.received
    ensures Ordered(m.(received := m.received + 1, pending := m.pending + [r]))
  {
  }

  lemma QueuedKeepsValid(m: State, r: Request)
    requires Valid(m) && m.live && r.id == m.received
    ensures Valid(m.(received := m.received + 1, pending := m.pending + [r]))
  {
    QueuedKeepsPartition(m, r);
    QueuedKeepsOrder(m, r);
  }

  lemma TurnedAwayKeepsPartition(m: State, r: Request, outcome: Outcome)
    requires Partitioned(m) && r.id == m.received
    ensures Partitioned(Finish(m.(received := m.received + 1), r, outcome))
  {
    var m' := Finish(m.(received := m.received + 1), r, outcome);
    forall id: nat | id < m'.received ensures Waits(m', id) || Runs(m', id) || id in m'.answers {
      if id == m.received {
      } else if Waits(m, id) {
        var i :| 0 <= i < |m.pending| && m.pending[i].id == id;
        assert m'.pending[i].id == id;
      } else if Runs(m, id) {
        var k :| k in m.running && m.running[k].id == id;
        assert m'.running[k].id == id;
      }
    }
  }

  lemma TurnedAwayKeepsValid(m: State, r: Request, outcome: Outcome)
    requires Valid(m) && r.id == m.received
    ensures Valid(Finish(m.(received := m.received + 1), r, outcome))
  {
    TurnedAwayKeepsPartition(m, r, outcome);
  }

  lemma ArrivedKeepsValid(m: State, kind: Kind, valid: bool)
    requires Valid(m)
    ensures Valid(Arrived(m, kind, valid))
  {
    hide Valid;
    var r := Request(m.received, kind, valid);
    var rejected := Rejection(m, r);
    assert Rejection(m.(received := m.received + 1), r) == rejected;
    if !m.live {
      TurnedAwayKeepsValid(m, r, HostUnavailable);
    } else if rejected.Some? {
      TurnedAwayKeepsValid(m, r, rejected.value);
    } else {
      QueuedKeepsValid(m, r);
    }
  }

  lemma RefusedKeepsValid(m: State, outcome: Outcome)
    requires Valid(m) && m.pending != []
    ensures Valid(Finish(m.(pending := m.pending[1..]), m.pending[0], outcome))
  {
    var m' := Finish(m.(pending := m.pending[1..]), m.pending[0], outcome);
    HeadLeaves(m, m');
  }

  /** Waiting requests other than the first keep waiting when the first is taken. */
  lemma HeadLeaves(m: State, m': State)
    requires m.pending != [] && m'.pending == m.pending[1..]
    ensures forall id: nat | Waits(m, id) && id != m.pending[0].id :: Waits(m', id)
  {
    forall id: nat | Waits(m, id) && id != m.pending[0].id ensures Waits(m', id) {
      var i :| 0 <= i < |m.pending| && m.pending[i].id == id;
      assert m'.pending[i - 1].id == id;
    }
  }

  lemma StartKeepsOrder(m: State, grants: nat)
    requires Ordered(m) && m.pending != [] && m.pending[0].id < m.received
    ensures Ordered(Start(m.(pending := m.pending[1..]), m.pending[0], grants))
  {
    assert forall i | 0 <= i < |m.started| :: m.started[i] in m.started;
  }

  lemma StartKeepsPartition(m: State, grants: nat)
    requires Partitioned(m) && Ordered(m) && m.pending != []
    ensures Partitioned(Start(m.(pending := m.pending[1..]), m.pending[0], grants))
  {
    StartCovers(m, grants);
    hide Waits, Runs;
    assert forall k | k in m.running :: m.running[k].id in m.started && m.running[k].id < m.pending[0].id;
  }

  /** What leaves the queue is running. */
  lemma StartCovers(m: State, grants: nat)
    requires Partitioned(m) && Ordered(m) && m.pending != []
    ensures var m' := Start(m.(pending := m.pending[1..]), m.pending[0], grants);
      forall id: nat | id < m'.received :: Waits(m', id) || Runs(m', id) || id in m'.answers
  {
    hide Waits, Increasing;
    var r := m.pending[0];
    var m' := Start(m.(pending := m.pending[1..]), r, grants);
    HeadLeaves(m, m');
    forall id: nat | id < m'.received ensures Waits(m', id) || Runs(m', id) || id in m'.answers {
      if id == r.id {
        assert m'.running[m'.nextInvocation].id == id;
      } else if Runs(m, id) {
        var k :| k in m.running && m.running[k].id == id;
        assert m'.running[k].id == id;
      }
    }
  }

  lemma StartKeepsValid(m: State, grants: nat)
    requires Valid(m) && m.pending != []
    ensures Valid(Start(m.(pending := m.pending[1..]), m.pending[0], grants))
  {
    StartKeepsOrder(m, grants);
    StartKeepsPartition(m, grants);
  }

  lemma {:induction false} ReadiedKeepsValid(m: State, grants: nat)
    requires Valid(m)
    ensures Valid(Readied(m, grants))
    ensures m.started <= Readied(m, grants).started
    decreases |m.pending|
  {
    hide Valid;
    if m.blockedOn.None? && m.pending != [] {
      var rejected := Rejection(m, m.pending[0]);
      if rejected.Some? {
        RefusedKeepsValid(m, rejected.value);
        ReadiedKeepsValid(Finish(m.(pending := m.pending[1..]), m.pending[0], rejected.value), grants);
      } else {
        StartKeepsValid(m, grants);
      }
    }
  }

  lemma {:induction false} DropKeepsValid(m: State)
    requires Valid(m)
    ensures Valid(Drop(m))
    decreases |m.pending|
  {
    if m.pending == [] {
      assert Partitioned(Drop(m)) by {
        forall id: nat | id < m.received ensures Runs(Drop(m), id) || id in m.answers {
          assert Runs(m, id) ==> Runs(Drop(m), id);
        }
      }
    } else {
      RefusedKeepsValid(m, HostUnavailable);
      DropKeepsValid(Finish(m.(pending := m.pending[1..]), m.pending[0], HostUnavailable));
    }
  }

  lemma FinishedKeepsValid(m: State, k: nat, outcome: Outcome)
    requires Valid(m) && k in m.running
    ensures Valid(Finish(m.(running := m.running - {k}), m.running[k], outcome))
  {
    FinishedCovers(m, k, outcome);
    hide Waits, Runs, Increasing;
  }

  /** What leaves the table is answered. */
  lemma FinishedCovers(m: State, k: nat, outcome: Outcome)
    requires Partitioned(m) && k in m.running
    ensures var m' := Finish(m.(running := m.running - {k}), m.running[k], outcome);
      forall id: nat | id < m.received :: Waits(m', id) || Runs(m', id) || id in m'.answers
  {
    var m' := Finish(m.(running := m.running - {k}), m.running[k], outcome);
    forall id: nat | id < m.received ensures Waits(m', id) || Runs(m', id) || id in m'.answers {
      if Waits(m, id) {
        var i :| 0 <= i < |m.pending| && m.pending[i].id == id;
        assert m'.pending[i].id == id;
      } else if Runs(m, id) && id != m.running[k].id {
        var l :| l in m.running && m.running[l].id == id;
        assert l in m'.running && m'.running[l].id == id;
      }
    }
  }

  /** The control flags play no part in a request's fate. */
  lemma FlagsKeepValid(m: State, m': State)
    requires Valid(m)
    requires m' == m.(blockedOn := m'.blockedOn, hydrating := m'.hydrating, interleaved := m'.interleaved,
                      seen := m'.seen, draining := m'.draining)
    requires m'.blockedOn.None? || m'.blockedOn == m.blockedOn
    ensures Valid(m')
  {
    forall id: nat | id < m.received ensures Waits(m', id) || Runs(m', id) || id in m'.answers {
      assert Waits(m, id) ==> Waits(m', id);
      assert Runs(m, id) ==> Runs(m', id);
    }
  }

  lemma SettledKeepsValid(m: State, c: Completion, databaseStopped: bool)
    requires Valid(m) && c.id in m.running
    ensures Valid(Settled(m, c, databaseStopped))
  {
    hide Valid;
    var stop := RecoveryOf(m, c, databaseStopped).Stop?;
    var outcome := if stop then Failed("outcome_unknown") else c.outcome;
    FinishedKeepsValid(m, c.id, outcome);
    var base := Finish(m.(running := m.running - {c.id}), m.running[c.id], outcome);
    var flagged := base.(hydrating := false, interleaved := m.interleaved || c.interleaved);
    FlagsKeepValid(base, flagged);
    if stop {
      DropKeepsValid(flagged);
    } else {
      FlagsKeepValid(base, Settled(m, c, databaseStopped));
    }
  }

  // ----- what one request can come back with -----

  datatype Prepared = Execute | Replayed(outcome: Outcome) | Unprepared

  datatype Reply = Answered(interleaved: bool, effectsValid: bool) | Refused(code: string) | Broken

  /** Whether the durable completion was confirmed, left in doubt, or failed otherwise. */
  datatype Publication = Confirmed | Unconfirmed | Unpublished

  function CommitOutcome(reply: Reply, publication: Publication, authority: bool): (Outcome, Recovery) {
    match reply
    case Refused(code) =>
      (Failed(if code == "resource_exhausted" then code else "actor_error"),
       if code in {"actor_method_failed", "actor_socket_failed"} then Keep else Reset)
    case Broken => (Failed("actor_error"), Reset)
    case Answered(interleaved, effectsValid) =>
      if !effectsValid then (Failed("actor_error"), Reset)
      else if publication.Unconfirmed? || (publication.Unpublished? && interleaved) then
        (Failed("outcome_unknown"), Evict)
      else if publication.Unpublished? || !authority then (HostError, Keep)
      else (Completed, Keep)
  }

  function RunRequest(
    id: nat, kind: Kind, prepared: Prepared, reply: Reply, publication: Publication, authority: bool): Completion
  {
    if kind.Activate? then
      Completion(id, Completed, false, if reply.Broken? then Stop else Keep, None, false)
    else
      match prepared
      case Replayed(outcome) => Completion(id, outcome, false, Keep, None, false)
      case Unprepared => Completion(id, HostError, false, Stop, None, false)
      case Execute =>
        var (outcome, recovery) := CommitOutcome(reply, publication, authority);
        Completion(id, outcome, reply.Answered? && reply.interleaved, recovery,
                   if reply.Refused? then Some(reply.code) else None, true)
  }

  /** A request that was executed is never reported as one the host was unavailable for. */
  lemma ExecutedIsNeverUnavailable(
    id: nat, kind: Kind, prepared: Prepared, reply: Reply, publication: Publication, authority: bool)
    ensures var c := RunRequest(id, kind, prepared, reply, publication, authority);
      && (c.executed <==> !kind.Activate? && prepared.Execute?)
      && (c.executed ==> !c.outcome.HostUnavailable?)
  {
  }
}
