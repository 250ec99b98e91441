/** The database worker publishes interleaved completions in the order the executor numbered them,
    whatever order they arrive in. */
module Completions {
  import opened Wrappers

  /** `confirmed` is what the session will answer when this completion is published. */
  datatype Completion = Completion(sequence: Option<nat>, confirmed: bool)

  datatype State = State(nextSequence: nat, ready: map<nat, Completion>, published: seq<Completion>, running: bool)

  const Initial: State := State(1, map[], [], true)

  function Drained(s: State): State
    decreases s.ready.Keys
  {
    if s.nextSequence !in s.ready then s
    else
      var c := s.ready[s.nextSequence];
      var rest := s.(ready := s.ready - {s.nextSequence});
      if !c.confirmed then rest.(running := false)
      else Drained(rest.(published := s.published + [c], nextSequence := s.nextSequence + 1))
  }

  function Completed(s: State, c: Completion): State {
    if c.sequence.None? then s.(published := if c.confirmed then s.published + [c] else s.published)
    else if c.sequence.value < s.nextSequence || c.sequence.value in s.ready then s.(running := false)
    else Drained(s.(ready := s.ready[c.sequence.value := c]))
  }

  class DatabaseWorker {
    var nextSequence: nat
    var ready: map<nat, Completion>
    var published: seq<Completion>
    var running: bool

    ghost function View(): State
      reads this
    {
      State(nextSequence, ready, published, running)
    }

    constructor ()
      ensures View() == Initial
    {
      nextSequence, ready, published, running := 1, map[], [], true;
    }

    method Publish(c: Completion) returns (success: bool)
      modifies this`published
      ensures success == c.confirmed
      ensures published == if success then old(published) + [c] else old(published)
    {
      if c.confirmed { published := published + [c]; }
      return c.confirmed;
    }

    /** Tells whether the worker goes on. */
    method Complete(c: Completion) returns (continues: bool)
      requires running
      modifies this
      ensures View() == Completed(old(View()), c)
      ensures continues == running
    {
      if c.sequence.None? {
        var _ := Publish(c);
        return true;
      }
      var sequence := c.sequence.value;
      if sequence < nextSequence || sequence in ready {
        running := false;
        return false;
      }
      ready := ready[sequence := c];
      while nextSequence in ready
        invariant running
        invariant Drained(View()) == Completed(old(View()), c)
        decreases ready.Keys
      {
        var completion := ready[nextSequence];
        ready := ready - {nextSequence};
        var success := Publish(completion);
        if !success {
          running := false;
          return false;
        }
        nextSequence := nextSequence + 1;
      }
      return true;
    }
  }

  // ----- publication order -----

  ghost function After(arrivals: seq<Completion>): State
    decreases |arrivals|
  {
    if arrivals == [] then Initial
    else
      var s := After(arrivals[..|arrivals| - 1]);
      if s.running then Completed(s, arrivals[|arrivals| - 1]) else s
  }

  /** The numbers carried by a list of completions, in order. */
  ghost function Numbers(cs: seq<Completion>): seq<nat> {
    if cs == [] then []
    else
      var init, c := Numbers(cs[..|cs| - 1]), cs[|cs| - 1];
      if c.sequence.Some? then init + [c.sequence.value] else init
  }

  /** The numbers from one up to, not including, `n`. */
  ghost function UpTo(n: nat): seq<nat> {
    if n <= 1 then [] else UpTo(n - 1) + [n - 1]
  }

  ghost predicate HasArrived(arrivals: seq<Completion>, n: nat) {
    exists i | 0 <= i < |arrivals| :: arrivals[i].sequence == Some(n)
  }

  /** What the worker has done with the arrivals as long as it runs. */
  ghost predicate Inv(s: State, arrivals: seq<Completion>) {
    && s.nextSequence > 0 && s.nextSequence !in s.ready
    && (forall n | n in s.ready :: s.nextSequence < n && s.ready[n].sequence == Some(n))
    && (forall n: nat :: HasArrived(arrivals, n) <==> 0 < n < s.nextSequence || n in s.ready)
    && (forall i | 0 <= i < |arrivals| && arrivals[i].sequence.Some? && !arrivals[i].confirmed ::
          arrivals[i].sequence.value in s.ready)
    && (forall n | n in s.ready :: s.ready[n] in arrivals)
  }

  lemma {:induction false} DrainPublishesNumbers(s: State)
    requires s.nextSequence > 0 && Numbers(s.published) == UpTo(s.nextSequence)
    requires forall n | n in s.ready :: s.ready[n].sequence == Some(n)
    ensures Drained(s).nextSequence > 0 && Numbers(Drained(s).published) == UpTo(Drained(s).nextSequence)
    decreases s.ready.Keys
  {
    if s.nextSequence in s.ready && s.ready[s.nextSequence].confirmed {
      var published := s.published + [s.ready[s.nextSequence]];
      assert published[..|published| - 1] == s.published;
      DrainPublishesNumbers(s.(ready := s.ready - {s.nextSequence}, published := published,
                               nextSequence := s.nextSequence + 1));
    }
  }

  /** Draining takes the consecutive run that starts at the next number, and stops the worker exactly
      when it meets a completion that cannot be confirmed. */
  lemma {:induction false} DrainTakesRun(s: State)
    requires s.running && forall n | n in s.ready :: s.nextSequence <= n
    ensures var s' := Drained(s);
      && s.nextSequence <= s'.nextSequence
      && (forall n | s.nextSequence <= n < s'.nextSequence :: n in s.ready && s.ready[n].confirmed)
      && (s'.running ==> s'.nextSequence !in s.ready)
      && (!s'.running ==> s'.nextSequence in s.ready && !s.ready[s'.nextSequence].confirmed)
    decreases s.ready.Keys
  {
    if s.nextSequence in s.ready && s.ready[s.nextSequence].confirmed {
      var next := s.(ready := s.ready - {s.nextSequence}, published := s.published + [s.ready[s.nextSequence]],
                     nextSequence := s.nextSequence + 1);
      DrainTakesRun(next);
      forall n | s.nextSequence <= n < Drained(s).nextSequence ensures n in s.ready && s.ready[n].confirmed {
        assert n == s.nextSequence || n in next.ready;
      }
    }
  }

  lemma {:induction false} DrainKeepsRest(s: State)
    requires s.running && forall n | n in s.ready :: s.nextSequence <= n
    ensures var s' := Drained(s);
      s'.running ==>
        && (forall n | n in s'.ready :: n in s.ready && s'.nextSequence <= n && s'.ready[n] == s.ready[n])
        && (forall n | n in s.ready && s'.nextSequence <= n :: n in s'.ready)
    decreases s.ready.Keys
  {
    if s.nextSequence in s.ready && s.ready[s.nextSequence].confirmed {
      var next := s.(ready := s.ready - {s.nextSequence}, published := s.published + [s.ready[s.nextSequence]],
                     nextSequence := s.nextSequence + 1);
      DrainKeepsRest(next);
      DrainTakesRun(next);
    }
  }

  /** The completions the worker can take without stopping: numbers from one, none repeated, and
      none that cannot be confirmed once all the numbers below it are there. */
  ghost predicate Acceptable(arrivals: seq<Completion>) {
    && (forall i | 0 <= i < |arrivals| :: arrivals[i].sequence != Some(0))
    && Unrepeated(arrivals)
    && (forall i | 0 <= i < |arrivals| && arrivals[i].sequence.Some? && !arrivals[i].confirmed ::
          Gap(arrivals, arrivals[i].sequence.value))
  }

  ghost predicate Unrepeated(arrivals: seq<Completion>) {
    forall i, j | 0 <= i < j < |arrivals| && arrivals[i].sequence.Some? ::
      arrivals[i].sequence != arrivals[j].sequence
  }

  ghost predicate Gap(arrivals: seq<Completion>, n: nat) {
    exists m: nat | 0 < m < n :: !HasArrived(arrivals, m)
  }

  lemma ArrivedExtends(arrivals: seq<Completion>, c: Completion, n: nat)
    ensures HasArrived(arrivals + [c], n) <==> HasArrived(arrivals, n) || c.sequence == Some(n)
  {
    var more := arrivals + [c];
    if HasArrived(arrivals, n) {
      var i :| 0 <= i < |arrivals| && arrivals[i].sequence == Some(n);
      assert more[i].sequence == Some(n);
    }
    assert more[|arrivals|] == c;
  }

  lemma AcceptableShrinks(arrivals: seq<Completion>, c: Completion)
    requires Acceptable(arrivals + [c])
    ensures Acceptable(arrivals)
  {
    var more := arrivals + [c];
    forall i | 0 <= i < |arrivals| && arrivals[i].sequence.Some? && !arrivals[i].confirmed
      ensures Gap(arrivals, arrivals[i].sequence.value)
    {
      assert more[i] == arrivals[i];
      var m: nat :| 0 < m < arrivals[i].sequence.value && !HasArrived(more, m);
      ArrivedExtends(arrivals, c, m);
    }
    forall i, j | 0 <= i < j < |arrivals| && arrivals[i].sequence.Some?
      ensures arrivals[i].sequence != arrivals[j].sequence
    {
      assert more[i] == arrivals[i] && more[j] == arrivals[j];
    }
    forall i | 0 <= i < |arrivals| ensures arrivals[i].sequence != Some(0) { assert more[i] == arrivals[i]; }
  }

  lemma UnnumberedStep(s: State, arrivals: seq<Completion>, c: Completion)
    requires s.running && Inv(s, arrivals) && Acceptable(arrivals) && Numbers(s.published) == UpTo(s.nextSequence)
    requires c.sequence.None?
    ensures var s' := Completed(s, c);
      && s'.running && Inv(s', arrivals + [c]) && Acceptable(arrivals + [c])
      && Numbers(s'.published) == UpTo(s'.nextSequence)
  {
    var s', more := Completed(s, c), arrivals + [c];
    forall n: nat ensures HasArrived(more, n) <==> HasArrived(arrivals, n) { ArrivedExtends(arrivals, c, n); }
    if c.confirmed { assert s'.published[..|s'.published| - 1] == s.published; }
    forall i | 0 <= i < |more| && more[i].sequence.Some? && !more[i].confirmed
      ensures Gap(more, more[i].sequence.value)
    {
      assert Gap(arrivals, arrivals[i].sequence.value);
    }
  }

  lemma RepeatedStep(s: State, arrivals: seq<Completion>, c: Completion)
    requires Inv(s, arrivals) && c.sequence.Some?
    requires c.sequence.value < s.nextSequence || c.sequence.value in s.ready
    ensures !Acceptable(arrivals + [c])
  {
    var more := arrivals + [c];
    assert more[|arrivals|] == c;
    if c.sequence.value > 0 {
      assert HasArrived(arrivals, c.sequence.value);
      var i :| 0 <= i < |arrivals| && arrivals[i].sequence == c.sequence;
      assert more[i].sequence == more[|arrivals|].sequence;
    }
  }

  /** The state with a new number buffered, before the run it completes is drained. */
  ghost predicate Buffered(s: State, arrivals: seq<Completion>) {
    && s.running && s.nextSequence > 0
    && (forall n | n in s.ready :: s.nextSequence <= n && s.ready[n].sequence == Some(n) && s.ready[n] in arrivals)
    && (forall n: nat :: HasArrived(arrivals, n) <==> 0 < n < s.nextSequence || n in s.ready)
    && (forall i | 0 <= i < |arrivals| && arrivals[i].sequence.Some? && !arrivals[i].confirmed ::
          arrivals[i].sequence.value in s.ready && s.ready[arrivals[i].sequence.value] == arrivals[i])
    && (forall i | 0 <= i < |arrivals| :: arrivals[i].sequence != Some(0))
    && Unrepeated(arrivals)
  }

  lemma BufferedStep(s: State, arrivals: seq<Completion>, c: Completion)
    requires s.running && Inv(s, arrivals) && Acceptable(arrivals)
    requires c.sequence.Some? && s.nextSequence <= c.sequence.value && c.sequence.value !in s.ready
    ensures Buffered(s.(ready := s.ready[c.sequence.value := c]), arrivals + [c])
  {
    var s1, more := s.(ready := s.ready[c.sequence.value := c]), arrivals + [c];
    forall n: nat ensures HasArrived(more, n) <==> 0 < n < s.nextSequence || n in s1.ready {
      ArrivedExtends(arrivals, c, n);
    }
    assert !HasArrived(arrivals, c.sequence.value);
    forall i | 0 <= i < |arrivals| && arrivals[i].sequence.Some? && !arrivals[i].confirmed
      ensures arrivals[i].sequence.value in s.ready && s.ready[arrivals[i].sequence.value] == arrivals[i]
    {
      var n := arrivals[i].sequence.value;
      assert s.ready[n] in arrivals;
      var j :| 0 <= j < |arrivals| && arrivals[j] == s.ready[n];
      assert arrivals[j].sequence == arrivals[i].sequence;
    }
  }

  lemma DrainedAccounts(s: State, arrivals: seq<Completion>, n: nat)
    requires Buffered(s, arrivals) && Drained(s).running
    ensures HasArrived(arrivals, n) <==> 0 < n < Drained(s).nextSequence || n in Drained(s).ready
  {
    hide Unrepeated, Drained, HasArrived;
    DrainTakesRun(s);
    DrainKeepsRest(s);
  }

  lemma DrainedLeavesGap(s: State, arrivals: seq<Completion>, i: nat)
    requires Buffered(s, arrivals) && Drained(s).running
    requires i < |arrivals| && arrivals[i].sequence.Some? && !arrivals[i].confirmed
    ensures arrivals[i].sequence.value in Drained(s).ready && Gap(arrivals, arrivals[i].sequence.value)
  {
    hide Unrepeated, Drained, HasArrived;
    var next := Drained(s).nextSequence;
    DrainTakesRun(s);
    DrainKeepsRest(s);
    var n := arrivals[i].sequence.value;
    assert n in s.ready && s.ready[n] == arrivals[i];
    assert next < n;
    assert !HasArrived(arrivals, next) by { DrainedAccounts(s, arrivals, next); }
  }

  lemma DrainedRuns(s: State, arrivals: seq<Completion>)
    requires Buffered(s, arrivals) && Drained(s).running
    ensures Inv(Drained(s), arrivals) && Acceptable(arrivals)
  {
    hide Unrepeated, Drained, HasArrived, Gap;
    DrainTakesRun(s);
    DrainKeepsRest(s);
    forall n: nat ensures HasArrived(arrivals, n) <==> 0 < n < Drained(s).nextSequence || n in Drained(s).ready {
      DrainedAccounts(s, arrivals, n);
    }
    forall i | 0 <= i < |arrivals| && arrivals[i].sequence.Some? && !arrivals[i].confirmed
      ensures arrivals[i].sequence.value in Drained(s).ready && Gap(arrivals, arrivals[i].sequence.value)
    {
      DrainedLeavesGap(s, arrivals, i);
    }
  }

  lemma DrainedStops(s: State, arrivals: seq<Completion>)
    requires Buffered(s, arrivals) && !Drained(s).running
    ensures !Acceptable(arrivals)
  {
    DrainTakesRun(s);
    var n := Drained(s).nextSequence;
    var i :| 0 <= i < |arrivals| && arrivals[i] == s.ready[n];
    assert forall m: nat | 0 < m < n :: HasArrived(arrivals, m);
    assert !Gap(arrivals, arrivals[i].sequence.value);
  }

  lemma NumberedStep(s: State, arrivals: seq<Completion>, c: Completion)
    requires s.running && Inv(s, arrivals) && Acceptable(arrivals) && Numbers(s.published) == UpTo(s.nextSequence)
    requires c.sequence.Some? && s.nextSequence <= c.sequence.value && c.sequence.value !in s.ready
    ensures var s' := Completed(s, c);
      && (s'.running <==> Acceptable(arrivals + [c]))
      && (s'.running ==> Inv(s', arrivals + [c]))
      && s'.nextSequence > 0 && Numbers(s'.published) == UpTo(s'.nextSequence)
  {
    var s1 := s.(ready := s.ready[c.sequence.value := c]);
    BufferedStep(s, arrivals, c);
    DrainPublishesNumbers(s1);
    if Drained(s1).running { DrainedRuns(s1, arrivals + [c]); } else { DrainedStops(s1, arrivals + [c]); }
  }

  /** The worker keeps running exactly while the arrivals are acceptable; what it has published is
      then 1, 2, 3 and so on up to the least number still missing, and everything else is buffered. */
  lemma {:induction false} PublishesInOrder(arrivals: seq<Completion>)
    ensures var s := After(arrivals);
      && (s.running <==> Acceptable(arrivals))
      && (s.running ==> Inv(s, arrivals))
      && s.nextSequence > 0 && Numbers(s.published) == UpTo(s.nextSequence)
    decreases |arrivals|
  {
    if arrivals != [] {
      var init, c := arrivals[..|arrivals| - 1], arrivals[|arrivals| - 1];
      assert arrivals == init + [c];
      PublishesInOrder(init);
      var s := After(init);
      if !s.running {
        if Acceptable(arrivals) { AcceptableShrinks(init, c); }
      } else if c.sequence.None? {
        UnnumberedStep(s, init, c);
      } else if c.sequence.value < s.nextSequence || c.sequence.value in s.ready {
        RepeatedStep(s, init, c);
      } else {
        NumberedStep(s, init, c);
      }
    }
  }

  /** In whatever order the numbers one to n arrive, confirmed, all of them are published in order. */
  lemma EveryOrderDrains(arrivals: seq<Completion>, n: nat)
    requires Acceptable(arrivals)
    requires forall m: nat :: HasArrived(arrivals, m) <==> 0 < m <= n
    ensures var s := After(arrivals); s.running && s.ready == map[] && Numbers(s.published) == UpTo(n + 1)
  {
    PublishesInOrder(arrivals);
    var s := After(arrivals);
    assert !HasArrived(arrivals, s.nextSequence);
    assert n < s.nextSequence;
    assert !HasArrived(arrivals, n + 1);
    assert forall m | m in s.ready :: HasArrived(arrivals, m);
    assert s.ready.Keys == {};
  }
}
