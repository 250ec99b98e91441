/** The executor connection: commands handed to the customer's process under fresh message ids,
    and the policing of whatever that process sends back. */
module Driver {
  import opened Wrappers

  datatype CommandKind = Hydrate | Invoke | Websocket | Evict

  /** `invocation` is the mailbox invocation that awaits the reply; evictions have none. */
  datatype Command = Command(kind: CommandKind, invocation: Option<nat>, granted: bool)

  /** `databaseIds` and `lookupIds` are the messages with a background task still running; `grants`
      counts the admission signals sent so far. */
  datatype State = State(
    pending: map<nat, Command>, nextMessageId: nat, databaseIds: set<nat>, lookupIds: set<nat>, grants: nat)
  {
    /** Outstanding work belongs to commands still awaiting their reply, and ids are never reused. */
    ghost predicate Valid() {
      && databaseIds <= pending.Keys
      && lookupIds <= pending.Keys
      && 0 < nextMessageId
      && (forall id | id in pending :: 0 < id < nextMessageId)
      && (forall id | id in pending && pending[id].granted :: pending[id].kind.Invoke? || pending[id].kind.Websocket?)
    }
  }

  const Initial: State := State(map[], 1, {}, {}, 0)

  /** Each message the peer sends either yields the next state or ends the connection. */
  type Effect = Option<State>

  function Enqueued(d: State, command: Command, encodable: bool): Effect {
    if d.nextMessageId >= U64_MAX then None
    else if !encodable then Some(d.(nextMessageId := d.nextMessageId + 1))
    else Some(d.(nextMessageId := d.nextMessageId + 1,
                 pending := d.pending[d.nextMessageId := command.(granted := false)]))
  }

  function Granted(d: State, id: nat): Effect {
    if id !in d.pending then None
    else
      var command := d.pending[id];
      if !(command.kind.Invoke? || command.kind.Websocket?) || command.granted then None
      else Some(d.(pending := d.pending[id := command.(granted := true)], grants := d.grants + 1))
  }

  /** A database call that names no awaited command runs in the activation's own scope. */
  function Called(d: State, id: Option<nat>): Effect {
    if id.None? || id.value !in d.pending then Some(d)
    else if id.value in d.databaseIds then None
    else Some(d.(databaseIds := d.databaseIds + {id.value}))
  }

  function Returned(d: State, id: Option<nat>): State {
    if id.None? then d else d.(databaseIds := d.databaseIds - {id.value})
  }

  function LookupStarted(d: State, id: nat): Effect {
    if id !in d.pending || d.pending[id].kind.Evict? || id in d.lookupIds then None
    else Some(d.(lookupIds := d.lookupIds + {id}))
  }

  function LookupDone(d: State, id: nat): State {
    d.(lookupIds := d.lookupIds - {id})
  }

  function Delivered(d: State, id: nat): Effect {
    if id in d.databaseIds || id in d.lookupIds || id !in d.pending then None
    else Some(d.(pending := d.pending - {id}))
  }

  class ExecutorDriver {
    var pending: map<nat, Command>
    var nextMessageId: nat
    var databaseIds: set<nat>
    var lookupIds: set<nat>
    var grants: nat

    ghost function View(): State
      reads this
    {
      State(pending, nextMessageId, databaseIds, lookupIds, grants)
    }

    constructor ()
      ensures View() == Initial && View().Valid()
    {
      pending, nextMessageId, databaseIds, lookupIds, grants := map[], 1, {}, {}, 0;
    }

    method Enqueue(command: Command, encodable: bool) returns (ok: bool)
      requires View().Valid()
      modifies this
      ensures View().Valid()
      ensures ok == Enqueued(old(View()), command, encodable).Some?
      ensures ok ==> View() == Enqueued(old(View()), command, encodable).value
      ensures ok ==> old(nextMessageId) !in old(pending)
      ensures !ok ==> View() == old(View())
    {
      var id := nextMessageId;
      if id >= U64_MAX { return false; }
      nextMessageId := id + 1;
      if encodable { pending := pending[id := command.(granted := false)]; }
      return true;
    }

    method AllowNextInvocation(id: nat) returns (ok: bool)
      requires View().Valid()
      modifies this
      ensures View().Valid()
      ensures ok == Granted(old(View()), id).Some?
      ensures ok ==> View() == Granted(old(View()), id).value
      ensures !ok ==> View() == old(View())
    {
      if id !in pending { return false; }
      var command := pending[id];
      if !(command.kind.Invoke? || command.kind.Websocket?) { return false; }
      if command.granted { return false; }
      pending := pending[id := command.(granted := true)];
      grants := grants + 1;
      return true;
    }

    method CallDatabase(id: Option<nat>) returns (ok: bool)
      requires View().Valid()
      modifies this
      ensures View().Valid()
      ensures ok == Called(old(View()), id).Some?
      ensures ok ==> View() == Called(old(View()), id).value
      ensures !ok ==> View() == old(View())
    {
      if id.None? || id.value !in pending { return true; }
      if id.value in databaseIds { return false; }
      databaseIds := databaseIds + {id.value};
      return true;
    }

    method DatabaseCalled(id: Option<nat>)
      requires View().Valid()
      modifies this
      ensures View().Valid() && View() == Returned(old(View()), id)
    {
      if id.Some? { databaseIds := databaseIds - {id.value}; }
    }

    method LoadConnections(id: nat) returns (ok: bool)
      requires View().Valid()
      modifies this
      ensures View().Valid()
      ensures ok == LookupStarted(old(View()), id).Some?
      ensures ok ==> View() == LookupStarted(old(View()), id).value
      ensures !ok ==> View() == old(View())
    {
      if id !in pending || pending[id].kind.Evict? || id in lookupIds { return false; }
      lookupIds := lookupIds + {id};
      return true;
    }

    method Deliver(id: nat) returns (ok: bool)
      requires View().Valid()
      modifies this
      ensures View().Valid()
      ensures ok == Delivered(old(View()), id).Some?
      ensures ok ==> View() == Delivered(old(View()), id).value
      ensures !ok ==> View() == old(View())
    {
      if id in databaseIds { return false; }
      if id in lookupIds { return false; }
      if id !in pending { return false; }
      pending := pending - {id};
      return true;
    }
  }
}
