/** What callers are told, read off the run: which completion answered a request, when a completion
    stops the mailbox, and which requests are refused, wait or start. */
module Outcomes {
  import opened Wrappers
  import M = Mailbox
  import opened Admission

  // ----- what one completion says -----

  predicate Completing(s: System, e: Event) {
    e.Complete? && Enabled(s, e)
  }

  function KindOf(s: System, e: Event): M.Kind
    requires Completing(s, e)
  {
    s.m.running[e.invocation].kind
  }

  /** The request went to the executor. */
  predicate Executes(s: System, e: Event)
    requires Completing(s, e)
  {
    !KindOf(s, e).Activate? && e.prepared.Execute?
  }

  predicate Interleaving(e: Event)
    requires e.Complete?
  {
    e.reply.Answered? && e.reply.interleaved
  }

  /** An acceptable reply, durably stored by a host that still holds its lease. */
  predicate Succeeded(e: Event)
    requires e.Complete?
  {
    e.reply.Answered? && e.reply.effectsValid && e.publication.Confirmed? && e.authority
  }

  /** An acceptable reply that may or may not have been stored. */
  predicate InDoubt(e: Event)
    requires e.Complete?
  {
    && e.reply.Answered? && e.reply.effectsValid
    && (e.publication.Unconfirmed? || (e.publication.Unpublished? && e.reply.interleaved))
  }

  /** An acceptable reply that was not stored, or by a host that no longer holds its lease. */
  predicate Unstored(e: Event)
    requires e.Complete?
  {
    && e.reply.Answered? && e.reply.effectsValid
    && if e.publication.Confirmed? then !e.authority else e.publication.Unpublished? && !e.reply.interleaved
  }

  /** A failure that leaves the actor as it was. */
  predicate Anticipated(e: Event)
    requires e.Complete?
  {
    && e.reply.Refused?
    && (e.reply.code == "actor_method_failed" || e.reply.code == "actor_socket_failed"
        || e.reply.code == "method_not_found" || e.reply.code == "method_not_callable")
  }

  /** The actor's memory can no longer be trusted: its database is gone or could not be prepared, an
      interleaved invocation did not succeed, or one that did not interleave ended other than by an
      anticipated failure after others had interleaved. */
  predicate Stops(s: System, e: Event)
    requires Completing(s, e)
  {
    || e.databaseStopped
    || (if KindOf(s, e).Activate? then e.reply.Broken? else e.prepared.Unprepared?)
    || (Executes(s, e) && if Interleaving(e) then !Succeeded(e) else s.m.interleaved && !Anticipated(e))
  }

  /** The completion tells the caller `told`. */
  predicate Tells(s: System, e: Event, told: M.Outcome)
    requires Completing(s, e)
  {
    if Stops(s, e) then told == M.Failed("outcome_unknown")
    else if KindOf(s, e).Activate? then told == M.Completed
    else if e.prepared.Replayed? then told == e.prepared.outcome
    else
      match told
      case Completed => Succeeded(e)
      case HostError => Unstored(e)
      case HostUnavailable => false
      case Failed(code) =>
        if InDoubt(e) then code == "outcome_unknown"
        else if e.reply == M.Refused("resource_exhausted") then code == "resource_exhausted"
        else code == "actor_error" && !Succeeded(e) && !Unstored(e)
  }

  function CompletionOf(s: System, e: Event): M.Completion
    requires Completing(s, e)
  {
    M.RunRequest(e.invocation, KindOf(s, e), e.prepared, e.reply, e.publication, e.authority)
  }

  /** After a completion the mailbox stops, or the actor's memory is dropped, dropped and reloaded, or
      kept, by what the completion says. */
  lemma RecoveryExactly(s: System, e: Event)
    requires Completing(s, e)
    ensures var recovery := M.RecoveryOf(s.m, CompletionOf(s, e), e.databaseStopped);
      && (recovery.Stop? <==> Stops(s, e))
      && (recovery.Evict? <==> !Stops(s, e) && Executes(s, e) && InDoubt(e))
      && (recovery.Reset? <==>
            && !Stops(s, e) && Executes(s, e)
            && match e.reply
               case Broken => true
               case Refused(code) => code != "actor_method_failed" && code != "actor_socket_failed"
               case Answered(_, effectsValid) => !effectsValid)
  {
  }

  lemma OutcomeTold(s: System, e: Event)
    requires Completing(s, e)
    ensures Tells(s, e, if Stops(s, e) then M.Failed("outcome_unknown") else CompletionOf(s, e).outcome)
  {
  }

  lemma TellsOne(s: System, e: Event, a: M.Outcome, b: M.Outcome)
    requires Completing(s, e) && Tells(s, e, a) && Tells(s, e, b)
    ensures a == b
  {
  }

  lemma SettledAnswer(m: M.State, c: M.Completion, databaseStopped: bool)
    requires M.Valid(m) && m.live && c.id in m.running
    ensures var id, stop, m' := m.running[c.id].id, M.RecoveryOf(m, c, databaseStopped).Stop?, M.Settled(m, c, databaseStopped);
      && id in m'.answers && m'.answers[id] == (if stop then M.Failed("outcome_unknown") else c.outcome)
      && m'.live == !stop && m'.interleaved == (m.interleaved || c.interleaved)
  {
    hide M.RecoveryOf;
    if M.RecoveryOf(m, c, databaseStopped).Stop? {
      var unknown := M.Failed("outcome_unknown");
      M.FinishedKeepsValid(m, c.id, unknown);
      var base := M.Finish(m.(running := m.running - {c.id}), m.running[c.id], unknown);
      var flagged := base.(hydrating := false, interleaved := m.interleaved || c.interleaved);
      M.FlagsKeepValid(base, flagged);
      DropShape(flagged);
      hide M.Valid;
    }
  }

  lemma SettledTells(s: System, e: Event)
    requires M.Valid(s.m) && Completing(s, e)
    ensures var id, m := s.m.running[e.invocation].id, Deciding(s, e).m;
      && id in m.answers && Tells(s, e, m.answers[id])
      && (m.live <==> !Stops(s, e))
      && (m.interleaved <==> s.m.interleaved || (Executes(s, e) && Interleaving(e)))
  {
    RecoveryExactly(s, e);
    OutcomeTold(s, e);
    SettledAnswer(s.m, CompletionOf(s, e), e.databaseStopped);
    hide Tells, Stops, M.Settled, M.RecoveryOf, M.Valid;
  }

  lemma DecidingWakes(s: System, e: Event)
    requires Enabled(s, e) && Decides(e)
    ensures var mid := Deciding(s, e); Next(s, e).m == M.Readied(mid.m, mid.d.grants)
  {
    hide M.Readied, M.Settled, M.Arrived;
  }

  lemma DecidingKeepsMailbox(s: System, e: Event)
    requires Inv(s) && Enabled(s, e) && Decides(e)
    ensures M.Valid(s.m) && M.Valid(Deciding(s, e).m)
  {
    DecidingKeepsInv(s, e);
    hide Deciding, M.Valid, Joint;
  }

  /** Waking leaves what a completion decided. */
  lemma CompletionTells(s: System, e: Event)
    requires Inv(s) && Completing(s, e)
    ensures var id, m := s.m.running[e.invocation].id, Next(s, e).m;
      id in m.answers && Tells(s, e, m.answers[id])
  {
    DecidingKeepsMailbox(s, e);
    hide Inv, Next, Deciding, Tells, M.Valid, M.Readied;
    SettledTells(s, e);
    DecidingWakes(s, e);
    ReadiedShape(Deciding(s, e).m, Deciding(s, e).d.grants);
  }

  // ----- which completion answered a request -----

  /** The i-th move of the run completes the request. */
  ghost predicate CompletesAt(events: seq<Event>, i: int, id: nat) {
    && 0 <= i < |events| && Completing(After(events[..i]), events[i])
    && After(events[..i]).m.running[events[i].invocation].id == id
  }

  lemma DecidingKeepsStarted(s: System, e: Event)
    requires M.Valid(s.m) && Enabled(s, e) && Decides(e)
    ensures Deciding(s, e).m.started == s.m.started
  {
    if e.Complete? {
      SettledShape(s.m, CompletionOf(s, e), e.databaseStopped);
      hide M.Settled, M.Valid;
    } else {
      hide M.Valid;
    }
  }

  lemma DecidingAnswersStarted(s: System, e: Event, id: nat)
    requires M.Valid(s.m) && Enabled(s, e) && Decides(e)
    requires id in s.m.started && id !in s.m.answers && id in Deciding(s, e).m.answers
    ensures e.Complete? && s.m.running[e.invocation].id == id
  {
    hide M.Valid, M.Settled, M.Arrived;
    if e.Complete? { SettledAnswersStarted(s.m, CompletionOf(s, e), e.databaseStopped, id); }
    if e.Receive? { ArrivedAnswersStarted(s.m, e.kind, e.valid, id); }
  }

  /** Who has started is answered by a completion of their own. */
  lemma StepAnswersStarted(s: System, e: Event, id: nat)
    requires Inv(s) && Enabled(s, e) && id in s.m.started
    requires id in Next(s, e).m.answers && id !in s.m.answers
    ensures e.Complete? && s.m.running[e.invocation].id == id
  {
    if Decides(e) {
      DecidingKeepsMailbox(s, e);
      hide Inv, Next, Deciding, M.Valid, M.Readied;
      DecidingWakes(s, e);
      DecidingKeepsStarted(s, e);
      ReadiedShape(Deciding(s, e).m, Deciding(s, e).d.grants);
      DecidingAnswersStarted(s, e, id);
    } else if e.Stop? {
      DropShape(s.m);
      hide Inv, M.Drop;
    } else {
      ConnectionKeepsInv(s, e);
      hide Inv, Next;
    }
  }

  lemma SettledAnswersStarted(m: M.State, c: M.Completion, databaseStopped: bool, id: nat)
    requires M.Valid(m) && m.live && c.id in m.running
    requires id in m.started && id in M.Settled(m, c, databaseStopped).answers && id !in m.answers
    ensures m.running[c.id].id == id
  {
    SettledShape(m, c, databaseStopped);
    hide M.Settled, M.Valid;
  }

  lemma ArrivedAnswersStarted(m: M.State, kind: M.Kind, valid: bool, id: nat)
    requires M.Valid(m) && id in m.started && id !in m.answers
    ensures id !in M.Arrived(m, kind, valid).answers
  {
    ArrivedShape(m, kind, valid);
    hide M.Arrived, M.Valid;
  }

  lemma StepKeepsStarted(s: System, e: Event)
    requires Inv(s) && Enabled(s, e)
    ensures s.m.started <= Next(s, e).m.started
    ensures forall id | id in Next(s, e).m.started && id !in s.m.started :: id !in Next(s, e).m.answers
  {
    if Decides(e) {
      DecidingKeepsMailbox(s, e);
      var mid := Deciding(s, e);
      M.ReadiedKeepsValid(mid.m, mid.d.grants);
      hide Inv, Next, Deciding, M.Readied;
      DecidingWakes(s, e);
      DecidingKeepsStarted(s, e);
      ReadiedShape(mid.m, mid.d.grants);
    } else if e.Stop? {
      DropShape(s.m);
      hide Inv, M.Drop;
    } else {
      ConnectionKeepsInv(s, e);
      hide Inv, Next;
    }
  }

  lemma {:induction false} AnsweredWasCompleted(events: seq<Event>, id: nat) returns (i: int)
    requires id in After(events).m.started && id in After(events).m.answers
    ensures CompletesAt(events, i, id)
    decreases |events|
  {
    hide Next, Enabled, Inv;
    var init, e := events[..|events| - 1], events[|events| - 1];
    var s := After(init);
    RunKeepsInv(init);
    if Enabled(s, e) { StepKeepsStarted(s, e); }
    if id in s.m.answers {
      i := AnsweredWasCompleted(init, id);
      assert events[..i] == init[..i];
    } else {
      i := |events| - 1;
      StepAnswersStarted(s, e, id);
    }
  }

  lemma CompletedStays(events: seq<Event>, i: int, id: nat)
    requires CompletesAt(events, i, id)
    ensures var m := After(events).m;
      id in m.answers && Tells(After(events[..i]), events[i], m.answers[id])
  {
    hide Next, Enabled, Inv, Tells;
    RunKeepsInv(events[..i]);
    CompletionTells(After(events[..i]), events[i]);
    assert events[..i + 1] == events[..i] + [events[i]];
    AfterExtends(events[..i], events[i]);
    AnswersArePermanent(events[..i + 1], events[i + 1..]);
    assert events[..i + 1] + events[i + 1..] == events;
  }

  /** The caller of a request that started learns an outcome exactly when a completion of that request
      tells it, or, for an unknown outcome, when the mailbox stopped without one. */
  lemma LearnedExactly(events: seq<Event>, id: nat, told: M.Outcome)
    requires id in After(events).m.started
    ensures M.Learned(After(events).m, id) == Some(told) <==>
      || (exists i :: CompletesAt(events, i, id) && Tells(After(events[..i]), events[i], told))
      || (told == M.Failed("outcome_unknown") && !After(events).m.live && !exists i :: CompletesAt(events, i, id))
  {
    hide Tells, Completing, After;
    RunKeepsInv(events);
    var m := After(events).m;
    forall i | CompletesAt(events, i, id) ensures id in m.answers && Tells(After(events[..i]), events[i], m.answers[id]) {
      CompletedStays(events, i, id);
    }
    if i :| CompletesAt(events, i, id) && Tells(After(events[..i]), events[i], told) {
      TellsOne(After(events[..i]), events[i], told, m.answers[id]);
    }
    if id in m.answers {
      var i := AnsweredWasCompleted(events, id);
    } else {
      StartedRuns(m, id);
    }
  }

  lemma StartedRuns(m: M.State, id: nat)
    requires M.Valid(m) && id in m.started && id !in m.answers
    ensures M.Runs(m, id)
  {
  }

  lemma SettledAnswersAnyone(m: M.State, c: M.Completion, databaseStopped: bool, id: nat)
    requires M.Valid(m) && m.live && c.id in m.running
    requires id in M.Settled(m, c, databaseStopped).answers && id !in m.answers
    ensures id in m.started || Refusal(M.Settled(m, c, databaseStopped).answers[id])
  {
    SettledShape(m, c, databaseStopped);
    RunningOnce(m, c.id);
    hide M.Settled, M.Valid;
  }

  lemma ArrivedAnswersAnyone(m: M.State, kind: M.Kind, valid: bool, id: nat)
    requires M.Valid(m) && id in M.Arrived(m, kind, valid).answers && id !in m.answers
    ensures Refusal(M.Arrived(m, kind, valid).answers[id])
  {
    ArrivedShape(m, kind, valid);
    hide M.Arrived, M.Valid;
  }

  lemma DecidingAnswersAnyone(s: System, e: Event, id: nat)
    requires M.Valid(s.m) && Enabled(s, e) && Decides(e)
    requires id in Deciding(s, e).m.answers && id !in s.m.answers
    ensures id in s.m.started || Refusal(Deciding(s, e).m.answers[id])
  {
    hide M.Valid, M.Settled, M.Arrived;
    if e.Receive? { ArrivedAnswersAnyone(s.m, e.kind, e.valid, id); }
    if e.Complete? { SettledAnswersAnyone(s.m, CompletionOf(s, e), e.databaseStopped, id); }
  }

  /** Only a refusal reaches someone who never started. */
  lemma StepAnswersAnyone(s: System, e: Event, id: nat)
    requires Inv(s) && Enabled(s, e) && id in Next(s, e).m.answers && id !in s.m.answers
    ensures id in s.m.started || Refusal(Next(s, e).m.answers[id])
  {
    if Decides(e) {
      DecidingKeepsMailbox(s, e);
      hide Inv, Next, Deciding, M.Valid, M.Readied;
      DecidingWakes(s, e);
      DecidingKeepsStarted(s, e);
      ReadiedShape(Deciding(s, e).m, Deciding(s, e).d.grants);
      if id in Deciding(s, e).m.answers { DecidingAnswersAnyone(s, e, id); }
    } else if e.Stop? {
      DropShape(s.m);
      hide Inv, M.Drop;
    } else {
      ConnectionKeepsInv(s, e);
      hide Inv, Next;
    }
  }

  lemma {:induction false} OthersStarted(events: seq<Event>, id: nat)
    requires id in After(events).m.answers && !Refusal(After(events).m.answers[id])
    ensures id in After(events).m.started
    decreases |events|
  {
    hide Next, Enabled, Inv;
    var init, e := events[..|events| - 1], events[|events| - 1];
    var s := After(init);
    RunKeepsInv(init);
    if Enabled(s, e) {
      StepKeepsStarted(s, e);
      StepKeepsAnswers(s, e);
      if id !in s.m.answers { StepAnswersAnyone(s, e, id); }
    }
    if id in s.m.answers { OthersStarted(init, id); }
  }

  // ----- requests the executor had -----

  lemma HandedIsExecuted(s: System, e: Event)
    requires Inv(s) && Completing(s, e) && s.m.running[e.invocation].id in s.handed
    ensures Executes(s, e)
  {
  }

  lemma StepHands(s: System, e: Event, id: nat)
    requires Inv(s) && Enabled(s, e) && id in Next(s, e).handed && id !in s.handed
    ensures id !in s.m.answers
  {
    hide Linked, Exclusive;
  }

  /** A completed request is not handed over any more. */
  lemma {:induction false} HandedBefore(events: seq<Event>, i: int, id: nat)
    requires CompletesAt(events, i, id) && id in After(events).handed
    ensures id in After(events[..i]).handed
    decreases |events|
  {
    hide Inv;
    var init, e := events[..|events| - 1], events[|events| - 1];
    if i < |init| {
      assert events[..i] == init[..i];
      assert CompletesAt(init, i, id);
      CompletedStays(init, i, id);
      RunKeepsInv(init);
      if Enabled(After(init), e) && id !in After(init).handed { StepHands(After(init), e, id); }
      HandedBefore(init, i, id);
    }
  }

  lemma HandedCompletes(events: seq<Event>, i: int, id: nat)
    requires CompletesAt(events, i, id) && id in After(events).handed
    ensures Executes(After(events[..i]), events[i])
  {
    hide Inv, After;
    HandedBefore(events, i, id);
    RunKeepsInv(events[..i]);
    HandedIsExecuted(After(events[..i]), events[i]);
  }

  lemma HandedStarted(events: seq<Event>, id: nat)
    requires id in After(events).handed
    ensures id in After(events).m.started
  {
    RunKeepsInv(events);
  }

  /** A request handed to the executor is reported as completed exactly when its reply was acceptable,
      durably stored under a lease still held, and the mailbox survived; as unknown exactly when the
      storing was in doubt or the mailbox stopped; and as a host error exactly when it was not stored. */
  lemma HandedLearns(events: seq<Event>, id: nat)
    requires id in After(events).handed
    ensures var told, live := M.Learned(After(events).m, id), After(events).m.live;
      && (told == Some(M.Completed) <==>
            exists i :: CompletesAt(events, i, id) && Succeeded(events[i]) && !Stops(After(events[..i]), events[i]))
      && (told == Some(M.Failed("outcome_unknown")) <==>
            || (exists i :: CompletesAt(events, i, id) && (InDoubt(events[i]) || Stops(After(events[..i]), events[i])))
            || (!live && !exists i :: CompletesAt(events, i, id)))
      && (told == Some(M.HostError) <==>
            exists i :: CompletesAt(events, i, id) && Unstored(events[i]) && !Stops(After(events[..i]), events[i]))
      && told != Some(M.HostUnavailable)
      && (told == None <==> live && !exists i :: CompletesAt(events, i, id))
  {
    hide Inv, After, Stops, Enabled;
    HandedStarted(events, id);
    forall i | CompletesAt(events, i, id)
      ensures Tells(After(events[..i]), events[i], M.Completed) <==>
                Succeeded(events[i]) && !Stops(After(events[..i]), events[i])
      ensures Tells(After(events[..i]), events[i], M.Failed("outcome_unknown")) <==>
                InDoubt(events[i]) || Stops(After(events[..i]), events[i])
      ensures Tells(After(events[..i]), events[i], M.HostError) <==>
                Unstored(events[i]) && !Stops(After(events[..i]), events[i])
      ensures !Tells(After(events[..i]), events[i], M.HostUnavailable)
    {
      HandedCompletes(events, i, id);
      ExecutedTells(After(events[..i]), events[i]);
    }
    hide Tells;
    LearnedExactly(events, id, M.Completed);
    LearnedExactly(events, id, M.Failed("outcome_unknown"));
    LearnedExactly(events, id, M.HostError);
    LearnedExactly(events, id, M.HostUnavailable);
    LearnedAtAll(events, id);
  }

  lemma ExecutedTells(s: System, e: Event)
    requires Completing(s, e) && Executes(s, e)
    ensures Tells(s, e, M.Completed) <==> Succeeded(e) && !Stops(s, e)
    ensures Tells(s, e, M.Failed("outcome_unknown")) <==> InDoubt(e) || Stops(s, e)
    ensures Tells(s, e, M.HostError) <==> Unstored(e) && !Stops(s, e)
    ensures !Tells(s, e, M.HostUnavailable)
  {
    assert |"outcome_unknown"| != |"resource_exhausted"| && |"outcome_unknown"| != |"actor_error"|;
  }

  lemma LearnedAtAll(events: seq<Event>, id: nat)
    requires id in After(events).m.started
    ensures M.Learned(After(events).m, id).None? <==> After(events).m.live && !exists i :: CompletesAt(events, i, id)
  {
    hide After, Inv, Completing;
    RunKeepsInv(events);
    var m := After(events).m;
    forall i | CompletesAt(events, i, id) ensures id in m.answers {
      CompletedStays(events, i, id);
    }
    if id in m.answers {
      var i := AnsweredWasCompleted(events, id);
    } else {
      InvMailbox(After(events));
      StartedRuns(m, id);
    }
  }

  lemma InvMailbox(s: System)
    requires Inv(s)
    ensures M.Valid(s.m)
  {
  }

  // ----- what ends a mailbox and what counts as interleaving -----

  predicate Halts(s: System, e: Event) {
    e.Stop? || (Completing(s, e) && Stops(s, e))
  }

  predicate Interleaves(s: System, e: Event) {
    Enabled(s, e) && (e.Admit? || (e.Complete? && Executes(s, e) && Interleaving(e)))
  }

  lemma DecidingFlags(s: System, e: Event)
    requires M.Valid(s.m) && Enabled(s, e) && Decides(e)
    ensures Deciding(s, e).m.live <==> s.m.live && !Halts(s, e)
    ensures Deciding(s, e).m.interleaved <==> s.m.interleaved || Interleaves(s, e)
  {
    hide M.Settled, Stops;
    if e.Complete? { SettledTells(s, e); }
    hide M.Valid, Tells;
  }

  lemma StepFlags(s: System, e: Event)
    requires Inv(s) && Enabled(s, e)
    ensures Next(s, e).m.live <==> s.m.live && !Halts(s, e)
    ensures Next(s, e).m.interleaved <==> s.m.interleaved || Interleaves(s, e)
  {
    if Decides(e) {
      InvMailbox(s);
      hide Inv, Next, Deciding, Halts, Interleaves, M.Readied, M.Valid;
      DecidingWakes(s, e);
      DecidingFlags(s, e);
      ReadiedKeepsFlags(Deciding(s, e).m, Deciding(s, e).d.grants);
    } else if !e.Stop? {
      ConnectionKeepsInv(s, e);
      hide Inv, Next;
    }
  }

  ghost predicate HaltsAt(events: seq<Event>, i: int) {
    0 <= i < |events| && Halts(After(events[..i]), events[i])
  }

  ghost predicate InterleavesAt(events: seq<Event>, i: int) {
    0 <= i < |events| && Interleaves(After(events[..i]), events[i])
  }

  lemma EarlierMoves(events: seq<Event>, e: Event, i: int)
    ensures HaltsAt(events + [e], i) <==> if i == |events| then Halts(After(events), e) else HaltsAt(events, i)
    ensures InterleavesAt(events + [e], i) <==>
              if i == |events| then Interleaves(After(events), e) else InterleavesAt(events, i)
  {
    hide Halts, Interleaves, After;
    if 0 <= i <= |events| { assert (events + [e])[..i] == events[..i]; }
    assert events[..|events|] == events;
  }

  /** A mailbox lives until it is stopped or a completion stops it, and counts as interleaved from the
      first admission or interleaved completion on. */
  lemma {:induction false} FlagsExactly(events: seq<Event>)
    ensures After(events).m.live <==> !exists i :: HaltsAt(events, i)
    ensures After(events).m.interleaved <==> exists i :: InterleavesAt(events, i)
    decreases |events|
  {
    if events != [] {
      hide Inv, Next, Enabled, Halts, Interleaves, HaltsAt, InterleavesAt, After;
      var init, e := events[..|events| - 1], events[|events| - 1];
      FlagsExactly(init);
      assert events == init + [e];
      AfterExtends(init, e);
      forall i
        ensures HaltsAt(events, i) <==> if i == |init| then Halts(After(init), e) else HaltsAt(init, i)
        ensures InterleavesAt(events, i) <==> if i == |init| then Interleaves(After(init), e) else InterleavesAt(init, i)
      {
        EarlierMoves(init, e, i);
      }
      assert HaltsAt(events, |init|) <==> Halts(After(init), e);
      assert InterleavesAt(events, |init|) <==> Interleaves(After(init), e);
      assert !HaltsAt(init, |init|) && !InterleavesAt(init, |init|) by { Beyond(init); }
      assert forall i | HaltsAt(init, i) :: HaltsAt(events, i);
      assert forall i | InterleavesAt(init, i) :: InterleavesAt(events, i);
      RunKeepsInv(init);
      if Enabled(After(init), e) { StepFlags(After(init), e); } else { DisabledIsQuiet(After(init), e); }
    }
  }

  lemma Beyond(events: seq<Event>)
    ensures !HaltsAt(events, |events|) && !InterleavesAt(events, |events|)
  {
  }

  lemma DisabledIsQuiet(s: System, e: Event)
    requires !Enabled(s, e)
    ensures !Halts(s, e) && !Interleaves(s, e)
  {
  }
}
