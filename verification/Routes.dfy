/** The route cache: generation-stamped entries ordered by epoch and shutdown rank. */
module Routes {
  import opened Actors
  import opened Wrappers

  /** One activation of an actor on one host session. */
  datatype Identity = Identity(host: string, session: string, epoch: u64)

  datatype Route = Route(identity: Identity, address: string, region: string, configKey: string, overridesRegions: bool)

  datatype Entry = Active(route: Route) | Draining(id: Identity) | Stopped(id: Identity) {

    function Of(): Identity {
      if Active? then route.identity else id
    }

    function Rank(): nat {
      match this
      case Active(_) => 0
      case Draining(_) => 1
      case Stopped(_) => 2
    }

    function Lifetime(): nat {
      if Active? then LIVENESS else SHUTDOWN_RETENTION
    }

    /** The same activation may only move towards Stopped; another one must have a newer epoch. */
    predicate Supersedes(current: Entry) {
      if Of() == current.Of() then Rank() >= current.Rank() else Of().epoch > current.Of().epoch
    }

    predicate IsActive(identity: Identity) {
      Active? && Of() == identity
    }
  }

  // Milliseconds: three 10 s heartbeats, and twice the longest host lease.
  const LIVENESS: nat := 30_000
  const SHUTDOWN_RETENTION: nat := 120_000

  /** A cached entry with the generation it was written under and the time it expires. */
  datatype Stamped = Stamped(generation: nat, entry: Entry, deadline: nat) {
    predicate Visible(current: nat) {
      generation == current || !entry.Active?
    }
  }

  datatype Table = Table(entries: map<ActorKey, Stamped>, generation: nat, now: nat) {

    /** What the cache holds for an actor and has not let expire. */
    function Current(actor: ActorKey): Option<Stamped> {
      if actor in entries && now < entries[actor].deadline then Some(entries[actor]) else None
    }

    function Get(actor: ActorKey): Option<Entry> {
      var current := Current(actor);
      if current.Some? && current.value.Visible(generation) then Some(current.value.entry) else None
    }

    function Write(actor: ActorKey, entry: Entry, observed: Option<nat>): Table {
      var current := Current(actor);
      if observed.Some? && observed.value != generation then this
      else if current.Some? && current.value.Visible(generation) && !entry.Supersedes(current.value.entry) then this
      else this.(entries := entries[actor := Stamped(generation, entry, now + entry.Lifetime())])
    }

    /** Writing an entry back restarts its lifetime. */
    function Renew(actor: ActorKey, identity: Identity): Table {
      var current := Current(actor);
      if current.Some? && current.value.entry.IsActive(identity) then
        this.(entries := entries[actor := current.value.(deadline := now + current.value.entry.Lifetime())])
      else this
    }

    function Remove(actor: ActorKey, identity: Identity): Table {
      var current := Current(actor);
      if current.Some? && current.value.entry.IsActive(identity) then this.(entries := entries - {actor})
      else this
    }
  }

  datatype Op =
    | Put(actor: ActorKey, entry: Entry)
    | Remember(actor: ActorKey, route: Route, observed: Option<nat>)
    | Renew(actor: ActorKey, identity: Identity)
    | Remove(actor: ActorKey, identity: Identity)
    | RemoveProject(project: string)
    | Tick(ms: nat)

  function Apply(t: Table, op: Op): Table {
    match op
    case Put(actor, entry) => t.Write(actor, entry, None)
    case Remember(actor, route, observed) =>
      if observed.Some? then t.Write(actor, Active(route), observed) else t
    case Renew(actor, identity) => t.Renew(actor, identity)
    case Remove(actor, identity) => t.Remove(actor, identity)
    case RemoveProject(_) => t.(generation := t.generation + 1)
    case Tick(ms) => t.(now := t.now + ms)
  }

  function Run(t: Table, ops: seq<Op>): Table
    decreases ops
  {
    if ops == [] then t else Run(Apply(t, ops[0]), ops[1..])
  }

  // ----- the in-memory store -----

  class MemoryRoutes {
    var entries: map<ActorKey, Stamped>
    var generation: nat
    var now: nat

    ghost function View(): Table
      reads this
    {
      Table(entries, generation, now)
    }

    constructor ()
      ensures View() == Table(map[], 0, 0)
    {
      entries, generation, now := map[], 0, 0;
    }

    method Get(actor: ActorKey) returns (r: Option<Entry>)
      ensures r == View().Get(actor)
    {
      if actor !in entries || entries[actor].deadline <= now { return None; }
      var stamped := entries[actor];
      return if stamped.Visible(generation) then Some(stamped.entry) else None;
    }

    method Write(actor: ActorKey, entry: Entry, observed: Option<nat>)
      modifies this
      ensures View() == old(View()).Write(actor, entry, observed)
    {
      if observed.Some? && observed.value != generation { return; }
      if actor in entries && now < entries[actor].deadline {
        var current := entries[actor];
        if current.Visible(generation) && !entry.Supersedes(current.entry) { return; }
      }
      entries := entries[actor := Stamped(generation, entry, now + entry.Lifetime())];
    }

    method Put(actor: ActorKey, entry: Entry)
      modifies this
      ensures View() == Apply(old(View()), Op.Put(actor, entry))
    {
      Write(actor, entry, None);
    }

    method Remember(actor: ActorKey, route: Route, observed: Option<nat>)
      modifies this
      ensures View() == Apply(old(View()), Op.Remember(actor, route, observed))
    {
      if observed.Some? { Write(actor, Active(route), observed); }
    }

    method Renew(actor: ActorKey, identity: Identity)
      modifies this
      ensures View() == Apply(old(View()), Op.Renew(actor, identity))
    {
      if actor in entries && now < entries[actor].deadline && entries[actor].entry.IsActive(identity) {
        var current := entries[actor];
        entries := entries[actor := current.(deadline := now + current.entry.Lifetime())];
      }
    }

    method Remove(actor: ActorKey, identity: Identity)
      modifies this
      ensures View() == Apply(old(View()), Op.Remove(actor, identity))
    {
      if actor in entries && now < entries[actor].deadline && entries[actor].entry.IsActive(identity) {
        entries := entries - {actor};
      }
    }

    method RemoveProject(project: string)
      modifies this
      ensures View() == Apply(old(View()), Op.RemoveProject(project))
    {
      generation := generation + 1;
    }

    method Tick(ms: nat)
      modifies this
      ensures View() == Apply(old(View()), Op.Tick(ms))
    {
      now := now + ms;
    }
  }

  // ----- shutdown entries hold -----

  /** No entry outlives a lifetime counted from now; true of the empty cache and kept throughout. */
  ghost predicate WellTimed(t: Table) {
    forall actor | actor in t.entries :: t.entries[actor].deadline <= t.now + t.entries[actor].entry.Lifetime()
  }

  lemma ApplyWellTimed(t: Table, op: Op)
    requires WellTimed(t)
    ensures WellTimed(Apply(t, op))
  {
  }

  /** The cache says that this activation is draining or stopped. */
  predicate ShutDown(t: Table, actor: ActorKey, identity: Identity) {
    var got := t.Get(actor);
    got.Some? && !got.value.Active? && got.value.Of() == identity
  }

  /** An accepted write for the actor by an activation with a strictly greater epoch. */
  predicate Overtakes(t: Table, op: Op, actor: ActorKey, identity: Identity) {
    match op
    case Put(a, entry) => a == actor && entry.Of() != identity && entry.Of().epoch > identity.epoch
    case Remember(a, route, observed) =>
      && a == actor && observed == Some(t.generation)
      && route.identity != identity && route.identity.epoch > identity.epoch
    case _ => false
  }

  predicate Expires(t: Table, op: Op, actor: ActorKey) {
    op.Tick? && actor in t.entries && t.entries[actor].deadline <= t.now + op.ms
  }

  /** One operation ends a shutdown exactly when it overtakes or expires it; in particular no
      renewal, removal, deployment, late resolution or late report of the same activation does. */
  lemma ShutdownStep(t: Table, op: Op, actor: ActorKey, identity: Identity)
    requires WellTimed(t) && ShutDown(t, actor, identity)
    ensures ShutDown(Apply(t, op), actor, identity) <==>
      !Overtakes(t, op, actor, identity) && !Expires(t, op, actor)
    ensures ShutDown(Apply(t, op), actor, identity) ==>
      && (Apply(t, op).Get(actor).value.Stopped? <==>
            t.Get(actor).value.Stopped? || op == Put(actor, Stopped(identity)))
      && Apply(t, op).entries[actor].deadline >= t.entries[actor].deadline
  {
  }

  function Elapsed(ops: seq<Op>): nat {
    if ops == [] then 0 else (if ops[0].Tick? then ops[0].ms else 0) + Elapsed(ops[1..])
  }

  /** Some operation of the run overtakes the activation at the moment it is applied. */
  predicate Overtaken(t: Table, ops: seq<Op>, actor: ActorKey, identity: Identity)
    decreases ops
  {
    ops != [] &&
    (Overtakes(t, ops[0], actor, identity) || Overtaken(Apply(t, ops[0]), ops[1..], actor, identity))
  }

  /** Until its retention runs out or a greater epoch replaces it, a shutdown answers every
      lookup, whatever else runs, and only ever moves from Draining to Stopped. */
  lemma {:induction false} ShutdownHolds(t: Table, ops: seq<Op>, actor: ActorKey, identity: Identity)
    requires WellTimed(t) && ShutDown(t, actor, identity)
    requires !Overtaken(t, ops, actor, identity)
    requires t.now + Elapsed(ops) < t.entries[actor].deadline
    ensures ShutDown(Run(t, ops), actor, identity)
    ensures t.Get(actor).value.Stopped? ==> Run(t, ops).Get(actor).value.Stopped?
    decreases ops
  {
    if ops != [] {
      ShutdownStep(t, ops[0], actor, identity);
      ApplyWellTimed(t, ops[0]);
      ShutdownHolds(Apply(t, ops[0]), ops[1..], actor, identity);
    }
  }

  /** A report of the shutdown itself takes effect unless the cache already knows a newer epoch
      (or a later state of the same activation), and then holds for the full retention. */
  lemma ReportedShutdownHolds(t: Table, ops: seq<Op>, actor: ActorKey, entry: Entry)
    requires WellTimed(t) && !entry.Active?
    requires t.Get(actor).Some? ==> entry.Supersedes(t.Get(actor).value)
    requires !Overtaken(Apply(t, Put(actor, entry)), ops, actor, entry.Of())
    requires Elapsed(ops) < SHUTDOWN_RETENTION
    ensures ShutDown(Run(Apply(t, Put(actor, entry)), ops), actor, entry.Of())
  {
    ApplyWellTimed(t, Put(actor, entry));
    ShutdownHolds(Apply(t, Put(actor, entry)), ops, actor, entry.Of());
  }

  // ----- discovery from the ownership record -----

  datatype Placement = Placement(identity: Identity, leaseId: string, expiresAtMs: nat)

  datatype Discovery = NoTarget | ShuttingDown | Target

  predicate HostMatchesConfig(host: string, configKey: string) {
    "host.v3." + configKey + "." <= host
  }

  /** Whether a recorded owner may still be used as a target. */
  function ActiveTarget(t: Table, actor: ActorKey, current: Option<Placement>, configKey: string, nowMs: nat)
    : (r: Discovery)
  {
    if current.None? then NoTarget
    else
      var p := current.value;
      if !HostMatchesConfig(p.identity.host, configKey) then NoTarget
      else if p.leaseId != p.identity.host || p.expiresAtMs <= nowMs then NoTarget
      else
        var got := t.Get(actor);
        if got.Some? && !got.value.Active? && got.value.Of() == p.identity then ShuttingDown
        else Target
  }

  /** While the shutdown holds, neither the cache nor the ownership record routes to it. */
  lemma ShutdownIsNeverTargeted(
    t: Table, ops: seq<Op>, actor: ActorKey, p: Placement, configKey: string, nowMs: nat)
    requires WellTimed(t) && ShutDown(t, actor, p.identity)
    requires !Overtaken(t, ops, actor, p.identity)
    requires t.now + Elapsed(ops) < t.entries[actor].deadline
    ensures ActiveTarget(Run(t, ops), actor, Some(p), configKey, nowMs) != Target
    ensures Run(t, ops).Get(actor).Some? && !Run(t, ops).Get(actor).value.Active?
  {
    ShutdownHolds(t, ops, actor, p.identity);
  }
}
