/** The control plane dispatches an invocation, again after each refusal, until it runs or the
    deadline passes. */
module Settle {
  import opened Wrappers
  import M = Mailbox
  import A = Admission
  import O = Outcomes

  datatype Reply = NotExecuted(reason: string) | Unauthenticated | Completed | Failed(code: string) {
    predicate Refusal() {
      NotExecuted? || Unauthenticated?
    }
  }

  /** How a host words what its mailbox told it; `delivered` says whether socket effects went out. */
  function HostReply(outcome: M.Outcome, delivered: bool): Reply {
    match outcome
    case Completed => if delivered then Completed else Failed("outcome_unknown")
    case Failed(code) => Failed(code)
    case HostUnavailable => NotExecuted("host_unavailable")
    case HostError => Failed("unavailable")
  }

  ghost predicate HandedBy(run: seq<A.Event>, request: nat) {
    request in A.After(run).handed
  }

  /** What became of one request sent to a host. A served request is one of the requests of that
      host's mailbox, and `history` is the run that answered it. */
  datatype Exchange =
    | NotConnected
    | Unauthorized
    | Lost(started: bool)
    | Served(outcome: M.Outcome, delivered: bool, ghost history: seq<A.Event>, ghost request: nat)
  {
    ghost predicate Genuine() {
      Served? ==>
        var s := A.After(history);
        request in s.m.answers && s.m.answers[request] == outcome
    }

    /** The host started the invocation, by the time it answered or at any time after. */
    ghost predicate Started() {
      match this
      case Lost(started) => started
      case Served(_, _, history, request) => exists more :: HandedBy(history + more, request)
      case _ => false
    }
  }

  /** Finding a host may provision one and hand it the invocation at once. */
  datatype Resolution =
    | Unresolved(error: string, started: bool)
    | Resolved(identity: nat, initial: Option<Exchange>)

  datatype Attempt = Attempt(resolution: Resolution, exchange: Exchange, expired: bool)

  function ValidateReply(reply: Reply): Result<Reply> {
    match reply
    case NotExecuted(reason) =>
      if reason in {"host_unavailable", "upstream_not_reached"} then Ok(reply) else Err("outcome_unknown")
    case Completed => Ok(reply)
    case Failed(code) => if code != "" then Ok(reply) else Err("outcome_unknown")
    case Unauthenticated => Err("outcome_unknown")
  }

  function SendInvocation(exchange: Exchange): Result<Reply> {
    match exchange
    case NotConnected => Ok(NotExecuted("upstream_not_reached"))
    case Unauthorized => Ok(Unauthenticated)
    case Lost(_) => Err("outcome_unknown")
    case Served(outcome, delivered, _, _) => ValidateReply(HostReply(outcome, delivered))
  }

  /** Either the reply a new host came up with or that of a dispatched request. */
  function OutcomeOf(a: Attempt): Result<Reply> {
    match a.resolution
    case Unresolved(error, _) => Err(error)
    case Resolved(_, Some(initial)) =>
      if initial.Served? then ValidateReply(HostReply(initial.outcome, initial.delivered)) else Err("outcome_unknown")
    case Resolved(_, None) => SendInvocation(a.exchange)
  }

  /** The request that decided the attempt was answered by a host: the one a new host came up with, or the
      one dispatched. */
  predicate ServedWith(a: Attempt, outcome: M.Outcome, delivered: bool) {
    match a.resolution
    case Unresolved(_, _) => false
    case Resolved(_, Some(initial)) => initial.Served? && initial.outcome == outcome && initial.delivered == delivered
    case Resolved(_, None) =>
      a.exchange.Served? && a.exchange.outcome == outcome && a.exchange.delivered == delivered
  }

  predicate Dispatched(a: Attempt) {
    a.resolution.Resolved? && a.resolution.initial.None?
  }

  /** Nobody can tell what became of the request: the exchange was lost, a new host came up without an
      answer to it, or the answer was malformed. */
  predicate Untold(a: Attempt) {
    || (Dispatched(a) && a.exchange.Lost?)
    || (a.resolution.Resolved? && a.resolution.initial.Some? && !a.resolution.initial.value.Served?)
    || ServedWith(a, M.Failed(""), true) || ServedWith(a, M.Failed(""), false)
  }

  /** What must have happened for the attempt to give this result. */
  predicate Yields(a: Attempt, result: Result<Reply>) {
    match result
    case Ok(Completed) => ServedWith(a, M.Completed, true)
    case Ok(Failed(code)) =>
      || (code != "" && (ServedWith(a, M.Failed(code), true) || ServedWith(a, M.Failed(code), false)))
      || (code == "outcome_unknown" && ServedWith(a, M.Completed, false))
      || (code == "unavailable" && (ServedWith(a, M.HostError, true) || ServedWith(a, M.HostError, false)))
    case Ok(NotExecuted(reason)) =>
      || (reason == "host_unavailable" && (ServedWith(a, M.HostUnavailable, true) || ServedWith(a, M.HostUnavailable, false)))
      || (reason == "upstream_not_reached" && Dispatched(a) && a.exchange.NotConnected?)
    case Ok(Unauthenticated) => Dispatched(a) && a.exchange.Unauthorized?
    case Err(error) =>
      if a.resolution.Unresolved? then error == a.resolution.error else error == "outcome_unknown" && Untold(a)
  }

  lemma OutcomeExactly(a: Attempt, result: Result<Reply>)
    ensures OutcomeOf(a) == result <==> Yields(a, result)
  {
    match a.resolution
    case Unresolved(_, _) =>
    case Resolved(_, Some(x)) => if x.Served? { ServedExactly(a, x.outcome, x.delivered, result); }
    case Resolved(_, None) =>
      if a.exchange.Served? { ServedExactly(a, a.exchange.outcome, a.exchange.delivered, result); }
  }

  lemma ServedExactly(a: Attempt, outcome: M.Outcome, delivered: bool, result: Result<Reply>)
    requires ServedWith(a, outcome, delivered)
    ensures ValidateReply(HostReply(outcome, delivered)) == result <==> Yields(a, result)
  {
  }

  predicate Refused(a: Attempt) {
    OutcomeOf(a).Ok? && OutcomeOf(a).value.Refusal()
  }

  /** The invocation began to run in this attempt. */
  ghost predicate Started(a: Attempt) {
    match a.resolution
    case Unresolved(_, started) => started
    case Resolved(_, Some(initial)) => initial.Started()
    case Resolved(_, None) => a.exchange.Started()
  }

  ghost predicate Genuine(a: Attempt) {
    match a.resolution
    case Unresolved(_, _) => true
    case Resolved(_, Some(initial)) => initial.Genuine()
    case Resolved(_, None) => a.exchange.Genuine()
  }

  /** The route of the attempt is given up: it led to a host that refused the request or was not reached,
      or nobody can tell what became of the request. */
  predicate GivenUp(a: Attempt) {
    && a.resolution.Resolved?
    && (|| Untold(a)
        || ServedWith(a, M.HostUnavailable, true) || ServedWith(a, M.HostUnavailable, false)
        || (Dispatched(a) && (a.exchange.NotConnected? || a.exchange.Unauthorized?)))
  }

  /** The routes given up by a list of attempts, in order. */
  function Removals(attempts: seq<Attempt>): seq<nat> {
    if attempts == [] then []
    else
      var before, a := Removals(attempts[..|attempts| - 1]), attempts[|attempts| - 1];
      if GivenUp(a) then before + [a.resolution.identity] else before
  }

  lemma GivenUpExactly(a: Attempt)
    ensures GivenUp(a) <==> a.resolution.Resolved? && (OutcomeOf(a).Err? || Refused(a))
  {
    OutcomeExactly(a, OutcomeOf(a));
  }

  /** By the mailbox's own guarantee, a host that reports itself unavailable started nothing and never
      will, however it runs on. */
  lemma RefusalIsGenuine(x: Exchange)
    requires x.Served? && x.Genuine() && HostReply(x.outcome, x.delivered).Refusal()
    ensures !x.Started()
  {
    forall more ensures !HandedBy(x.history + more, x.request) {
      A.AnswersArePermanent(x.history, more);
      A.UnavailableMeansNotHanded(x.history + more, x.request);
    }
  }

  lemma RefusedNeverStarted(a: Attempt)
    requires Genuine(a) && Refused(a)
    ensures !Started(a) && a.resolution.Resolved?
  {
    match a.resolution
    case Resolved(_, Some(initial)) =>
      if initial.Served? { RefusalIsGenuine(initial); }
    case Resolved(_, None) =>
      if a.exchange.Served? { RefusalIsGenuine(a.exchange); }
    case Unresolved(_, _) =>
  }

  /** The run of a host that answered a request as completed. */
  ghost predicate Durable(history: seq<A.Event>, request: nat) {
    exists i :: O.CompletesAt(history, i, request) && O.Tells(A.After(history[..i]), history[i], M.Completed)
  }

  /** What a caller is told has completed did complete at a host: an activation that succeeded, an
      execution whose result was stored, or one known to have completed before. */
  lemma CompletedIsDurable(a: Attempt)
    requires Genuine(a) && OutcomeOf(a) == Ok(Completed)
    ensures a.resolution.Resolved?
    ensures var x := if a.resolution.initial.Some? then a.resolution.initial.value else a.exchange;
      x.Served? && Durable(x.history, x.request)
  {
    OutcomeExactly(a, Ok(Completed));
    var x := if a.resolution.initial.Some? then a.resolution.initial.value else a.exchange;
    hide A.After, O.Tells, O.Completing;
    O.OthersStarted(x.history, x.request);
    O.LearnedExactly(x.history, x.request, M.Completed);
  }

  /** `attempts` is what the network and the hosts will do, attempt by attempt; with no result the
      invocation is still being retried after all of them. However often it is dispatched, at most one
      attempt starts it; when the caller is told it was refused, none did; and every repetition comes
      after the refusing route was removed. */
  method Settle(attempts: seq<Attempt>) returns (result: Option<Result<Reply>>, used: nat, removed: seq<nat>)
    requires forall i | 0 <= i < |attempts| :: Genuine(attempts[i])
    ensures used <= |attempts| && (result.None? ==> used == |attempts|)
    ensures result.Some? ==> used > 0 && Yields(attempts[used - 1], result.value)
    ensures result.Some? ==> !Refused(attempts[used - 1]) || attempts[used - 1].expired
    ensures forall i | 0 <= i < used - (if result.Some? then 1 else 0) ::
              Refused(attempts[i]) && !attempts[i].expired && attempts[i].resolution.identity in removed
    ensures removed == Removals(attempts[..used])
    ensures forall i, j | 0 <= i < used && 0 <= j < used && Started(attempts[i]) && Started(attempts[j]) :: i == j
    ensures result.None? || (result.value.Ok? && result.value.value.Refusal()) ==>
              forall i | 0 <= i < used :: !Started(attempts[i])
  {
    used, removed := 0, [];
    while used < |attempts|
      invariant used <= |attempts|
      invariant forall i | 0 <= i < used ::
                  && Refused(attempts[i]) && !attempts[i].expired && !Started(attempts[i])
                  && attempts[i].resolution.Resolved? && attempts[i].resolution.identity in removed
      invariant removed == Removals(attempts[..used])
    {
      var a := attempts[used];
      var outcome := OutcomeOf(a);
      GivenUpExactly(a);
      assert attempts[..used + 1][..used] == attempts[..used];
      used := used + 1;
      if a.resolution.Resolved? && (outcome.Err? || outcome.value.Refusal()) {
        removed := removed + [a.resolution.identity];
      }
      if Refused(a) { RefusedNeverStarted(a); }
      if outcome.Err? || !outcome.value.Refusal() || a.expired {
        OutcomeExactly(a, outcome);
        return Some(outcome), used, removed;
      }
    }
    return None, used, removed;
  }
}
