/** How the renewal loop ends: stopped only by a shutdown in time, lost as soon as the confirmed window
    runs out without one, and going on as long as renewals are confirmed in time. */
module Renewals {
  import opened Wrappers
  import opened Leases

  /** What the loop is set up with: how often it renews, the offset of the host's clock, and how long a
      lease lasts. */
  datatype Setup = Setup(renewEvery: nat, host: nat, duration: nat)

  function Deadline(setup: Setup, last: Renewal): nat {
    last.LocalDeadline(setup.host, setup.duration)
  }

  /** When the renewal of a round begun at `now` comes back. */
  function Back(setup: Setup, now: nat, round: Round): nat {
    now + setup.renewEvery + round.toSample + round.toStamp + round.toAnchor + round.toFinish
  }

  function RenewalIn(setup: Setup, now: nat, round: Round): Renewal {
    var back := Back(setup, now, round);
    Renewal(back - round.toFinish - round.toAnchor - round.toStamp, back - round.toFinish - round.toAnchor,
            back - round.toFinish, back)
  }

  predicate ShutBy(round: Round, t: nat) {
    round.shutdown.Some? && round.shutdown.value <= t
  }

  /** Shutdown comes before the confirmed window runs out and before the round is over. */
  predicate Shuts(setup: Setup, l: Loop, round: Round) {
    ShutBy(round, Deadline(setup, l.last)) && ShutBy(round, Back(setup, l.now, round))
  }

  /** The confirmed window runs out, unless a shutdown came first, before the round is over. */
  predicate Lapses(setup: Setup, l: Loop, round: Round) {
    !ShutBy(round, Deadline(setup, l.last)) && Deadline(setup, l.last) <= Back(setup, l.now, round)
  }

  /** The store accepts the renewal and some of the window it confirms is left. */
  predicate Confirms(setup: Setup, l: Loop, round: Round) {
    && round.accepted
    && Millis(setup.host, Back(setup, l.now, round))
       < Millis(setup.host, RenewalIn(setup, l.now, round).sampled) + setup.duration
  }

  lemma RoundExactly(setup: Setup, l: Loop, round: Round)
    requires l.end.Ongoing?
    ensures var l' := RoundDone(l, round, setup.renewEvery, setup.host, setup.duration);
      && (l'.end.Stopped? <==> Shuts(setup, l, round))
      && (l'.end.Lost? <==> Lapses(setup, l, round))
      && (l'.end.Lost? ==> l'.end.at == Latest(l.now, Deadline(setup, l.last)))
      && l'.now == (if l'.end.Ongoing? then Back(setup, l.now, round)
                    else if Deadline(setup, l.last) <= l.now + setup.renewEvery || ShutBy(round, l.now + setup.renewEvery)
                    then l.now else l.now + setup.renewEvery)
      && l'.last == if l'.end.Ongoing? && Confirms(setup, l, round) then RenewalIn(setup, l.now, round) else l.last
  {
    hide Millis;
  }

  // ----- whole runs -----

  function Run(setup: Setup, first: Renewal, rounds: seq<Round>): Loop {
    Rounds(Loop(first.finished, first, Ongoing), rounds, setup.renewEvery, setup.host, setup.duration)
  }

  lemma {:induction false} RoundsExtend(setup: Setup, l: Loop, rounds: seq<Round>, round: Round)
    ensures var before := Rounds(l, rounds, setup.renewEvery, setup.host, setup.duration);
      Rounds(l, rounds + [round], setup.renewEvery, setup.host, setup.duration)
      == if before.end.Ongoing? then RoundDone(before, round, setup.renewEvery, setup.host, setup.duration) else before
    decreases |rounds|
  {
    hide RoundDone;
    if rounds == [] {
      assert ([round])[1..] == [];
      assert [] + [round] == [round];
    } else if l.end.Ongoing? {
      RoundsExtend(setup, RoundDone(l, rounds[0], setup.renewEvery, setup.host, setup.duration), rounds[1..], round);
      assert (rounds + [round])[1..] == rounds[1..] + [round];
    }
  }

  /** The loop is still going when the i-th round begins, and in it the shutdown comes in time. */
  ghost predicate ShutsAt(setup: Setup, first: Renewal, rounds: seq<Round>, i: int) {
    && 0 <= i < |rounds| && Run(setup, first, rounds[..i]).end.Ongoing?
    && Shuts(setup, Run(setup, first, rounds[..i]), rounds[i])
  }

  ghost predicate LapsesAt(setup: Setup, first: Renewal, rounds: seq<Round>, i: int) {
    && 0 <= i < |rounds| && Run(setup, first, rounds[..i]).end.Ongoing?
    && Lapses(setup, Run(setup, first, rounds[..i]), rounds[i])
  }

  lemma EarlierRounds(setup: Setup, first: Renewal, rounds: seq<Round>, round: Round, i: int)
    ensures var l := Run(setup, first, rounds);
      && (ShutsAt(setup, first, rounds + [round], i) <==>
            if i == |rounds| then l.end.Ongoing? && Shuts(setup, l, round) else ShutsAt(setup, first, rounds, i))
      && (LapsesAt(setup, first, rounds + [round], i) <==>
            if i == |rounds| then l.end.Ongoing? && Lapses(setup, l, round) else LapsesAt(setup, first, rounds, i))
  {
    hide Run, Shuts, Lapses;
    if 0 <= i <= |rounds| { assert (rounds + [round])[..i] == rounds[..i]; }
    assert rounds[..|rounds|] == rounds;
  }

  /** The loop is stopped exactly by a shutdown that comes in time in some round, and reports the lease
      as lost exactly when in some round the confirmed window runs out first. */
  lemma {:induction false} LoopEndsExactly(setup: Setup, first: Renewal, rounds: seq<Round>)
    ensures Run(setup, first, rounds).end.Stopped? <==> exists i :: ShutsAt(setup, first, rounds, i)
    ensures Run(setup, first, rounds).end.Lost? <==> exists i :: LapsesAt(setup, first, rounds, i)
    decreases |rounds|
  {
    if rounds != [] {
      hide Rounds, RoundDone, Shuts, Lapses;
      var init, round := rounds[..|rounds| - 1], rounds[|rounds| - 1];
      var l := Run(setup, first, init);
      LoopEndsExactly(setup, first, init);
      assert rounds == init + [round];
      RoundsExtend(setup, Loop(first.finished, first, Ongoing), init, round);
      if l.end.Ongoing? { RoundExactly(setup, l, round); }
      hide Run, ShutsAt, LapsesAt;
      forall i
        ensures ShutsAt(setup, first, rounds, i) <==>
          if i == |init| then l.end.Ongoing? && Shuts(setup, l, round) else ShutsAt(setup, first, init, i)
        ensures LapsesAt(setup, first, rounds, i) <==>
          if i == |init| then l.end.Ongoing? && Lapses(setup, l, round) else LapsesAt(setup, first, init, i)
      {
        EarlierRounds(setup, first, init, round, i);
      }
      assert !ShutsAt(setup, first, init, |init|) && !LapsesAt(setup, first, init, |init|) by { NoRound(setup, first, init); }
      assert forall i | ShutsAt(setup, first, init, i) :: ShutsAt(setup, first, rounds, i);
      assert forall i | LapsesAt(setup, first, init, i) :: LapsesAt(setup, first, rounds, i);
      assert ShutsAt(setup, first, rounds, |init|) <==> l.end.Ongoing? && Shuts(setup, l, round);
      assert LapsesAt(setup, first, rounds, |init|) <==> l.end.Ongoing? && Lapses(setup, l, round);
    }
  }

  lemma NoRound(setup: Setup, first: Renewal, rounds: seq<Round>)
    ensures !ShutsAt(setup, first, rounds, |rounds|) && !LapsesAt(setup, first, rounds, |rounds|)
  {
  }

  // ----- what that means for shutdowns and renewals -----

  /** A loop that was stopped had a shutdown no later than the end of the window confirmed last; one that
      was lost had none in the round in which that window ran out, and says so at that moment, or at once
      when a renewal came back only after its own window had run out. */
  lemma {:induction false} EndsInTime(setup: Setup, first: Renewal, rounds: seq<Round>)
    ensures var l := Run(setup, first, rounds);
      && (l.end.Stopped? ==> exists i | 0 <= i < |rounds| :: ShutBy(rounds[i], Deadline(setup, l.last)))
      && (l.end.Lost? ==> Deadline(setup, l.last) <= l.end.at <= Latest(l.last.finished, Deadline(setup, l.last)))
      && (l.end.Ongoing? ==> l.now == l.last.finished || l.now < Deadline(setup, l.last))
    decreases |rounds|
  {
    if rounds != [] {
      var init, round := rounds[..|rounds| - 1], rounds[|rounds| - 1];
      EndsInTime(setup, first, init);
      assert rounds == init + [round];
      RoundsExtend(setup, Loop(first.finished, first, Ongoing), init, round);
      var l := Run(setup, first, init);
      hide Rounds, RoundDone;
      if l.end.Ongoing? {
        RoundExactly(setup, l, round);
        assert rounds[|rounds| - 1] == round;
      }
      assert forall i | 0 <= i < |init| :: rounds[i] == init[i];
    }
  }

  lemma OneMore(n: nat, every: nat)
    ensures n * every >= 0 && (n + 1) * every == n * every + every
  {
  }

  /** Without a shutdown, a store that refuses for long enough costs the lease, at the very end of the
      window confirmed first. */
  lemma {:induction false} RefusalsLoseTheLease(setup: Setup, first: Renewal, rounds: seq<Round>)
    requires forall i | 0 <= i < |rounds| :: rounds[i].shutdown.None? && !rounds[i].accepted
    ensures var l := Run(setup, first, rounds);
      if l.end.Ongoing? then l.last == first && l.now >= first.finished + |rounds| * setup.renewEvery
                             && (rounds != [] ==> l.now < Deadline(setup, first))
      else l.end == Lost(Latest(first.finished, Deadline(setup, first)))
    decreases |rounds|
  {
    if rounds != [] {
      var init, round := rounds[..|rounds| - 1], rounds[|rounds| - 1];
      RefusalsLoseTheLease(setup, first, init);
      assert rounds == init + [round];
      RoundsExtend(setup, Loop(first.finished, first, Ongoing), init, round);
      var l := Run(setup, first, init);
      hide Rounds, RoundDone, Deadline;
      if l.end.Ongoing? {
        RoundExactly(setup, l, round);
        OneMore(|init|, setup.renewEvery);
      }
    }
  }

  /** A round that is neither stopped nor lapsed, and whose renewal is confirmed, moves the window on. */
  ghost predicate Renewed(setup: Setup, first: Renewal, rounds: seq<Round>, i: int) {
    0 <= i < |rounds| &&
    var l := Run(setup, first, rounds[..i]);
    && !ShutBy(rounds[i], Back(setup, l.now, rounds[i])) && Confirms(setup, l, rounds[i])
    && Back(setup, l.now, rounds[i]) < Deadline(setup, l.last)
  }

  /** Renewals that are confirmed in time keep the loop going for as long as they come, and the last of
      them sets the window. */
  lemma {:induction false} ConfirmedRenewalsKeepTheLease(setup: Setup, first: Renewal, rounds: seq<Round>)
    requires forall i | 0 <= i < |rounds| :: Renewed(setup, first, rounds, i)
    ensures var l := Run(setup, first, rounds);
      && l.end.Ongoing? && l.now == l.last.finished
      && (rounds != [] ==>
            l.last == RenewalIn(setup, Run(setup, first, rounds[..|rounds| - 1]).now, rounds[|rounds| - 1]))
    decreases |rounds|
  {
    if rounds != [] {
      var init, round := rounds[..|rounds| - 1], rounds[|rounds| - 1];
      forall i | 0 <= i < |init| ensures Renewed(setup, first, init, i) {
        assert Renewed(setup, first, rounds, i);
        assert init[..i] == rounds[..i];
      }
      assert Renewed(setup, first, rounds, |init|);
      ConfirmedRenewalsKeepTheLease(setup, first, init);
      assert rounds == init + [round];
      RoundsExtend(setup, Loop(first.finished, first, Ongoing), init, round);
      hide Rounds, RoundDone;
      RoundExactly(setup, Run(setup, first, init), round);
    }
  }
}
