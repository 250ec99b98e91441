/** Which requests are refused, which wait and which start: a serving mailbox refuses nothing valid and
    lets nothing wait but behind an invocation that runs. */
module Service {
  import opened Wrappers
  import M = Mailbox
  import opened Admission
  import opened Outcomes

  // ----- nothing waits without a reason -----

  ghost predicate BlockRuns(m: M.State) {
    m.live && m.blockedOn.Some? ==> m.blockedOn.value in m.running
  }

  ghost predicate Attended(m: M.State) {
    BlockRuns(m) && (m.blockedOn.None? ==> m.pending == [])
  }

  lemma {:induction false} ReadiedAttends(m: M.State, grants: nat)
    requires BlockRuns(m)
    ensures Attended(M.Readied(m, grants))
    decreases |m.pending|
  {
    if m.blockedOn.None? && m.pending != [] {
      var rejected := M.Rejection(m, m.pending[0]);
      if rejected.Some? {
        ReadiedAttends(M.Finish(m.(pending := m.pending[1..]), m.pending[0], rejected.value), grants);
      }
    }
  }

  lemma DecidingBlocks(s: System, e: Event)
    requires M.Valid(s.m) && Attended(s.m) && Enabled(s, e) && Decides(e)
    ensures BlockRuns(Deciding(s, e).m)
  {
    hide M.Valid, M.Settled, M.Arrived;
    if e.Complete? { SettledBlocks(s.m, CompletionOf(s, e), e.databaseStopped); }
    if e.Receive? { ArrivedBlocks(s.m, e.kind, e.valid); }
  }

  lemma SettledBlocks(m: M.State, c: M.Completion, databaseStopped: bool)
    requires M.Valid(m) && m.live && c.id in m.running && BlockRuns(m)
    ensures BlockRuns(M.Settled(m, c, databaseStopped))
  {
    SettledShape(m, c, databaseStopped);
    hide M.Settled, M.Valid;
  }

  lemma ArrivedBlocks(m: M.State, kind: M.Kind, valid: bool)
    requires BlockRuns(m)
    ensures BlockRuns(M.Arrived(m, kind, valid))
  {
  }

  lemma StepAttends(s: System, e: Event)
    requires Inv(s) && Attended(s.m) && Enabled(s, e)
    ensures Attended(Next(s, e).m)
  {
    if Decides(e) {
      InvMailbox(s);
      hide Inv, Next, M.Readied;
      DecidingWakes(s, e);
      DecidingBlocks(s, e);
      ReadiedAttends(Deciding(s, e).m, Deciding(s, e).d.grants);
    } else if !e.Stop? {
      ConnectionKeepsInv(s, e);
      hide Inv, Next;
    }
  }

  /** In every run, a request waits only while an invocation that blocks the mailbox runs. */
  lemma {:induction false} WaitingMeansBlocked(events: seq<Event>)
    ensures Attended(After(events).m)
    decreases |events|
  {
    hide Inv, Next, Enabled, Attended;
    if events == [] {
      InitiallyAttended();
    } else {
      var init, e := events[..|events| - 1], events[|events| - 1];
      WaitingMeansBlocked(init);
      RunKeepsInv(init);
      if Enabled(After(init), e) { StepAttends(After(init), e); }
    }
  }

  lemma InitiallyAttended()
    ensures Attended(Initial.m)
  {
  }

  // ----- refusals -----

  predicate Unwelcome(m: M.State, kind: M.Kind) {
    !m.live || (m.draining && kind != M.Socket(true))
  }

  /** On arrival a request is refused as the mailbox no longer serves it, refused as invalid, starts at
      once when nothing blocks, or waits. */
  lemma ArrivalExactly(events: seq<Event>, kind: M.Kind, valid: bool)
    ensures var s, s' := After(events), Next(After(events), Receive(kind, valid));
      var id := s.m.received;
      && (id in s'.m.answers && s'.m.answers[id] == M.HostUnavailable <==> Unwelcome(s.m, kind))
      && (id in s'.m.answers && s'.m.answers[id] == M.HostError <==> !Unwelcome(s.m, kind) && !valid)
      && (M.Runs(s'.m, id) <==> !Unwelcome(s.m, kind) && valid && s.m.blockedOn.None?)
      && (M.Waits(s'.m, id) <==> !Unwelcome(s.m, kind) && valid && s.m.blockedOn.Some?)
  {
    var s := After(events);
    RunKeepsInv(events);
    InvMailbox(s);
    WaitingMeansBlocked(events);
    hide Inv, After;
    ArrivalAt(s.m, kind, valid, s.d.grants);
  }

  lemma RefusedOnArrival(m: M.State, kind: M.Kind, valid: bool, grants: nat)
    requires M.Valid(m) && Attended(m) && (Unwelcome(m, kind) || !valid)
    ensures var m' := M.Readied(M.Arrived(m, kind, valid), grants);
      m'.received > m.received && m.received in m'.answers
      && m'.answers[m.received] == (if Unwelcome(m, kind) then M.HostUnavailable else M.HostError)
  {
    hide M.Partitioned, M.Ordered;
    assert M.Arrived(m, kind, valid).pending == m.pending;
  }

  lemma ServedOnArrival(m: M.State, kind: M.Kind, grants: nat)
    requires M.Valid(m) && Attended(m) && !Unwelcome(m, kind)
    ensures var m' := M.Readied(M.Arrived(m, kind, true), grants);
      if m.blockedOn.None? then M.Runs(m', m.received) else M.Waits(m', m.received)
  {
    hide M.Partitioned, M.Ordered;
    var mid := M.Arrived(m, kind, true);
    var m' := M.Readied(mid, grants);
    if m.blockedOn.None? {
      assert mid.pending == [M.Request(m.received, kind, true)];
      assert m'.running[m'.nextInvocation].id == m.received;
    } else {
      assert m'.pending[|m.pending|].id == m.received;
    }
  }

  lemma ArrivalAt(m: M.State, kind: M.Kind, valid: bool, grants: nat)
    requires M.Valid(m) && Attended(m)
    ensures var m', id := M.Readied(M.Arrived(m, kind, valid), grants), m.received;
      && (id in m'.answers && m'.answers[id] == M.HostUnavailable <==> Unwelcome(m, kind))
      && (id in m'.answers && m'.answers[id] == M.HostError <==> !Unwelcome(m, kind) && !valid)
      && (M.Runs(m', id) <==> !Unwelcome(m, kind) && valid && m.blockedOn.None?)
      && (M.Waits(m', id) <==> !Unwelcome(m, kind) && valid && m.blockedOn.Some?)
  {
    hide M.Valid, M.Arrived, M.Readied, M.Runs, M.Waits, Unwelcome, Attended;
    M.ArrivedKeepsValid(m, kind, valid);
    M.ReadiedKeepsValid(M.Arrived(m, kind, valid), grants);
    var m' := M.Readied(M.Arrived(m, kind, valid), grants);
    if Unwelcome(m, kind) || !valid {
      RefusedOnArrival(m, kind, valid, grants);
      AnsweredIsPlaced(m', m.received);
    } else {
      ServedOnArrival(m, kind, grants);
      PlacedOnce(m', m.received);
    }
  }

  lemma AnsweredIsPlaced(m: M.State, id: nat)
    requires M.Valid(m) && id in m.answers
    ensures !M.Runs(m, id) && !M.Waits(m, id)
  {
  }

  lemma PlacedOnce(m: M.State, id: nat)
    requires M.Valid(m)
    ensures !(M.Runs(m, id) && M.Waits(m, id))
    ensures M.Runs(m, id) || M.Waits(m, id) ==> id !in m.answers
  {
  }

  /** The i-th move of the run brings the request. */
  ghost predicate ReceivedAt(events: seq<Event>, i: int, id: nat) {
    0 <= i < |events| && events[i].Receive? && After(events[..i]).m.received == id
  }

  /** Where a request can be: waiting, started, refused as invalid, or refused by a mailbox that no
      longer serves it. */
  ghost predicate Placed(m: M.State, r: M.Request) {
    || (r.valid && r in m.pending)
    || (r.valid && r.id in m.started)
    || (r.id !in m.started && r.id in m.answers && m.answers[r.id].HostError? && !r.valid)
    || (r.id !in m.started && r.id in m.answers && m.answers[r.id].HostUnavailable? && Unwelcome(m, r.kind))
  }

  /** What is settled about a request stays so. */
  ghost predicate Onwards(m: M.State, m': M.State) {
    && Answered(m, m') && (m.draining ==> m'.draining) && (m'.live ==> m.live)
    && (forall id | id in m.started :: id in m'.started)
    && (forall id | id in m.answers && id in m'.started :: id in m.started)
  }

  lemma {:induction false} ReadiedPlaces(m: M.State, grants: nat, r: M.Request)
    requires M.Valid(m) && r in m.pending && r.valid
    ensures Placed(M.Readied(m, grants), r)
    decreases |m.pending|
  {
    if m.blockedOn.None? {
      var head := m.pending[0];
      var rejected := M.Rejection(m, head);
      if rejected.Some? {
        var refused := M.Finish(m.(pending := m.pending[1..]), head, rejected.value);
        M.RefusedKeepsValid(m, rejected.value);
        if r == head {
          ReadiedShape(refused, grants);
          ReadiedKeepsFlags(refused, grants);
        } else {
          assert m.pending == [head] + m.pending[1..];
          ReadiedPlaces(refused, grants, r);
        }
      } else if r != head {
        assert m.pending == [head] + m.pending[1..];
      }
    }
  }

  lemma {:induction false} DropPlaces(m: M.State, r: M.Request)
    requires M.Valid(m) && r in m.pending
    ensures var m' := M.Drop(m); r.id in m'.answers && m'.answers[r.id].HostUnavailable?
    decreases |m.pending|
  {
    var head := m.pending[0];
    var refused := M.Finish(m.(pending := m.pending[1..]), head, M.HostUnavailable);
    M.RefusedKeepsValid(m, M.HostUnavailable);
    if r == head {
      DropShape(refused);
    } else {
      assert m.pending == [head] + m.pending[1..];
      DropPlaces(refused, r);
    }
  }

  lemma PlacedStays(m: M.State, m': M.State, r: M.Request)
    requires Placed(m, r) && Onwards(m, m') && (r.valid && r in m.pending ==> Placed(m', r))
    ensures Placed(m', r)
  {
  }

  lemma CalmOnwards(m: M.State, m': M.State)
    requires Calm(m, m') && m'.draining == m.draining && m'.live == m.live
    ensures Onwards(m, m')
  {
  }

  lemma StartsOnwards(m: M.State, m': M.State, grants: nat)
    requires Starts(m, m', grants) && m'.draining == m.draining && m'.live == m.live
    requires m'.running[m'.nextInvocation].id !in m'.answers
    ensures Onwards(m, m')
  {
  }

  lemma ReadiedOnwards(m: M.State, grants: nat)
    requires M.Valid(m)
    ensures Onwards(m, M.Readied(m, grants))
  {
    hide M.Readied, M.Valid, Calm, Onwards;
    var m' := M.Readied(m, grants);
    ReadiedShape(m, grants);
    ReadiedKeepsFlags(m, grants);
    M.ReadiedKeepsValid(m, grants);
    if Calm(m, m') {
      CalmOnwards(m, m');
    } else {
      RunningOnce(m', m'.nextInvocation);
      StartsOnwards(m, m', grants);
    }
  }

  lemma DropOnwards(m: M.State)
    requires M.Valid(m)
    ensures Onwards(m, M.Drop(m))
  {
    DropShape(m);
  }

  lemma SettledPlaces(m: M.State, c: M.Completion, databaseStopped: bool, r: M.Request)
    requires M.Valid(m) && m.live && c.id in m.running && Placed(m, r)
    ensures Placed(M.Settled(m, c, databaseStopped), r)
  {
    var m' := M.Settled(m, c, databaseStopped);
    SettledShape(m, c, databaseStopped);
    if M.RecoveryOf(m, c, databaseStopped).Stop? && r.valid && r in m.pending {
      var unknown := M.Failed("outcome_unknown");
      M.FinishedKeepsValid(m, c.id, unknown);
      var base := M.Finish(m.(running := m.running - {c.id}), m.running[c.id], unknown);
      var flagged := base.(hydrating := false, interleaved := m.interleaved || c.interleaved);
      M.FlagsKeepValid(base, flagged);
      hide M.Valid;
      DropPlaces(flagged, r);
    }
    hide M.Valid;
    assert Onwards(m, m');
    PlacedStays(m, m', r);
  }

  lemma ArrivedPlaces(m: M.State, kind: M.Kind, valid: bool, r: M.Request)
    requires M.Valid(m) && (Placed(m, r) || r == M.Request(m.received, kind, valid))
    ensures Placed(M.Arrived(m, kind, valid), r)
  {
    ArrivedShape(m, kind, valid);
    hide M.Valid;
  }

  lemma DecidingPlaces(s: System, e: Event, r: M.Request)
    requires M.Valid(s.m) && Enabled(s, e) && Decides(e)
    requires Placed(s.m, r) || (e.Receive? && r == M.Request(s.m.received, e.kind, e.valid))
    ensures Placed(Deciding(s, e).m, r)
  {
    hide M.Valid, M.Settled, M.Arrived;
    if e.Complete? { SettledPlaces(s.m, CompletionOf(s, e), e.databaseStopped, r); }
    if e.Receive? { ArrivedPlaces(s.m, e.kind, e.valid, r); }
  }

  lemma StepPlaces(s: System, e: Event, r: M.Request)
    requires Inv(s) && Enabled(s, e)
    requires Placed(s.m, r) || (e.Receive? && r == M.Request(s.m.received, e.kind, e.valid))
    ensures Placed(Next(s, e).m, r)
  {
    if Decides(e) {
      DecidingKeepsMailbox(s, e);
      hide Inv, Next, M.Readied, Deciding, M.Valid, Placed;
      DecidingWakes(s, e);
      DecidingPlaces(s, e, r);
      var mid := Deciding(s, e);
      ReadiedOnwards(mid.m, mid.d.grants);
      if r.valid && r in mid.m.pending { ReadiedPlaces(mid.m, mid.d.grants, r); }
      PlacedStays(mid.m, M.Readied(mid.m, mid.d.grants), r);
    } else if e.Stop? {
      InvMailbox(s);
      hide Inv;
      DropOnwards(s.m);
      if r.valid && r in s.m.pending { DropPlaces(s.m, r); }
      PlacedStays(s.m, M.Drop(s.m), r);
    } else {
      ConnectionKeepsInv(s, e);
      hide Inv, Next;
    }
  }

  lemma {:induction false} ReceivedIsPlaced(events: seq<Event>, i: int, id: nat)
    requires ReceivedAt(events, i, id)
    ensures Placed(After(events).m, M.Request(id, events[i].kind, events[i].valid))
    decreases |events|
  {
    hide Inv, Next, Enabled, Placed;
    var init, e := events[..|events| - 1], events[|events| - 1];
    var r := M.Request(id, events[i].kind, events[i].valid);
    RunKeepsInv(init);
    if i < |init| {
      assert init[..i] == events[..i];
      ReceivedIsPlaced(init, i, id);
      if Enabled(After(init), e) { StepPlaces(After(init), e, r); }
    } else {
      AlwaysReceives(After(init), e);
      StepPlaces(After(init), e, r);
    }
  }

  lemma AlwaysReceives(s: System, e: Event)
    requires e.Receive?
    ensures Enabled(s, e)
  {
  }

  /** While a mailbox serves a request's kind, the request, if valid, has started or still waits; it is
      refused as invalid exactly when it is, and otherwise only by a mailbox that stopped or drains. */
  lemma ValidIsServed(events: seq<Event>, i: int, id: nat)
    requires ReceivedAt(events, i, id)
    ensures var m := After(events).m;
      && (id !in m.started && id in m.answers ==>
            || (m.answers[id] == M.HostError && !events[i].valid)
            || (m.answers[id] == M.HostUnavailable && Unwelcome(m, events[i].kind)))
      && (events[i].valid && !Unwelcome(m, events[i].kind) ==> id in m.started || M.Waits(m, id))
      && (!events[i].valid ==> id !in m.started)
  {
    var m, r := After(events).m, M.Request(id, events[i].kind, events[i].valid);
    ReceivedIsPlaced(events, i, id);
    RunKeepsInv(events);
    InvMailbox(After(events));
    hide Inv, After;
    if r in m.pending {
      var j :| 0 <= j < |m.pending| && m.pending[j] == r;
      assert m.pending[j].id == id;
    }
  }

  // ----- admissions and completions make way -----

  /** The first request that waits, if the mailbox still serves it. */
  predicate NextInLine(m: M.State, r: M.Request) {
    m.pending != [] && m.pending[0] == r && !Unwelcome(m, r.kind)
  }

  lemma {:induction false} WaitingAreValid(events: seq<Event>)
    ensures forall r | r in After(events).m.pending :: r.valid
    decreases |events|
  {
    hide Inv, Next, Enabled;
    if events != [] {
      var init, e := events[..|events| - 1], events[|events| - 1];
      WaitingAreValid(init);
      RunKeepsInv(init);
      if Enabled(After(init), e) { StepKeepsWaiting(After(init), e); }
    }
  }

  lemma {:induction false} ReadiedKeepsWaiting(m: M.State, grants: nat)
    ensures forall r | r in M.Readied(m, grants).pending :: r in m.pending
    decreases |m.pending|
  {
    if m.blockedOn.None? && m.pending != [] {
      var rejected := M.Rejection(m, m.pending[0]);
      if rejected.Some? {
        ReadiedKeepsWaiting(M.Finish(m.(pending := m.pending[1..]), m.pending[0], rejected.value), grants);
      }
    }
  }

  lemma StepKeepsWaiting(s: System, e: Event)
    requires Inv(s) && Enabled(s, e) && forall r | r in s.m.pending :: r.valid
    ensures forall r | r in Next(s, e).m.pending :: r.valid
  {
    if Decides(e) {
      DecidingWakes(s, e);
      ReadiedKeepsWaiting(Deciding(s, e).m, Deciding(s, e).d.grants);
      hide Inv, M.Readied, Next;
    } else if !e.Stop? {
      ConnectionKeepsInv(s, e);
      hide Inv, Next;
    }
  }

  predicate Unblocks(s: System, e: Event) {
    Enabled(s, e) && (e.Admit? || (e.Complete? && s.m.blockedOn == Some(e.invocation) && !Stops(s, e)))
  }

  lemma UnblockedDecides(s: System, e: Event)
    requires M.Valid(s.m) && Unblocks(s, e)
    ensures var m := Deciding(s, e).m;
      m.blockedOn.None? && m.pending == s.m.pending && m.draining == s.m.draining && m.live
  {
    hide Stops;
    if e.Complete? {
      SettledTells(s, e);
      SettledShape(s.m, CompletionOf(s, e), e.databaseStopped);
      SettledKeepsQueue(s.m, CompletionOf(s, e), e.databaseStopped);
      hide M.Settled, M.Valid, Tells;
    } else {
      hide M.Valid;
    }
  }

  lemma ReadiedTakes(m: M.State, grants: nat)
    requires m.blockedOn.None? && m.pending != [] && M.Rejection(m, m.pending[0]).None?
    ensures var m' := M.Readied(m, grants);
      && m'.blockedOn == Some(m'.nextInvocation) && m'.nextInvocation in m'.running
      && m'.running[m'.nextInvocation] == m.pending[0]
      && m'.seen == grants
  {
  }

  /** Who is next in line starts when the invocation that blocks admits it or is completed without
      stopping the mailbox; and the admission is used up. */
  lemma UnblockingStarts(events: seq<Event>, e: Event, r: M.Request)
    requires Unblocks(After(events), e) && NextInLine(After(events).m, r)
    ensures var s' := Next(After(events), e);
      && s'.m.blockedOn == Some(s'.m.nextInvocation) && s'.m.nextInvocation in s'.m.running
      && s'.m.running[s'.m.nextInvocation] == r
      && !M.CanAdmit(s'.m, s'.d.grants)
  {
    var s := After(events);
    WaitingAreValid(events);
    RunKeepsInv(events);
    InvMailbox(s);
    hide Inv, After, M.Valid, Next, Deciding, M.Readied, Stops;
    UnblockedDecides(s, e);
    DecidingWakes(s, e);
    DecidingLeavesDriver(s, e);
    ReadiedTakes(Deciding(s, e).m, Deciding(s, e).d.grants);
  }

  lemma DecidingLeavesDriver(s: System, e: Event)
    requires Enabled(s, e) && Decides(e)
    ensures Deciding(s, e).d == s.d && Next(s, e).d == s.d
  {
    hide M.Settled, M.Arrived, M.Readied;
  }

  lemma SettledKeepsQueue(m: M.State, c: M.Completion, databaseStopped: bool)
    requires c.id in m.running && M.Settled(m, c, databaseStopped).live
    ensures M.Settled(m, c, databaseStopped).pending == m.pending
    ensures M.Settled(m, c, databaseStopped).draining == m.draining
  {
  }
}
