/** Resolutions, deployments and lifecycle reports interleaved over the route cache. A
    resolution reads the generation before it loads the deployment; a deployment bumps the
    generation after it changes the registry. Both orders are needed for what is proved here. */
module Deployments {
  import opened Actors
  import opened Wrappers
  import opened Routes

  /** How far a resolution got; the generation is absent when it could not be read. */
  datatype Resolver =
    | Idle
    | HasGeneration(generation: Option<nat>)
    | HasSpec(generation: Option<nat>, configKey: string)

  /** How far a deployment got: it holds the project's lock, has retired the old routes and hosts,
      or has changed the registry and still has to retire the routes once more. */
  datatype Deployer = Unlocked | Locked | Retired | Changed

  /** `registered` is the deployment's host configuration key. `dirty` says that it changed since the
      project's routes were last retired. */
  datatype System = System(
    table: Table, registered: Option<string>, dirty: bool, deployer: Deployer, resolvers: map<nat, Resolver>)

  datatype Step =
    | ReadGeneration(p: nat, readable: bool)
    | LoadSpec(p: nat)
    | RememberTarget(p: nat, actor: ActorKey, route: Route)
    | GiveUp(p: nat)
    | Lock
    | Retire
    | Register(configKey: string)
    | Unregister
    | RetireAgain
    | Abandon
    | OtherProject(project: string)
    | Report(actor: ActorKey, entry: Entry)
    | Heartbeat(actor: ActorKey, identity: Identity)
    | Refused(actor: ActorKey, identity: Identity)
    | Pass(ms: nat)

  function ResolverOf(s: System, p: nat): Resolver {
    if p in s.resolvers then s.resolvers[p] else Idle
  }

  predicate Enabled(s: System, step: Step) {
    match step
    case ReadGeneration(p, _) => ResolverOf(s, p).Idle?
    case LoadSpec(p) => ResolverOf(s, p).HasGeneration?
    case RememberTarget(p, _, route) =>
      ResolverOf(s, p).HasSpec? && route.configKey == ResolverOf(s, p).configKey
    case GiveUp(_) => true
    case Lock => s.deployer.Unlocked?
    case Retire => s.deployer.Locked? && s.registered.Some?
    case Register(_) => s.deployer.Retired? || (s.deployer.Locked? && s.registered.None?)
    case Unregister => s.deployer.Retired?
    case RetireAgain => s.deployer.Changed?
    case Abandon => true
    case OtherProject(_) => true
    case Report(_, entry) => !entry.Active?
    case Heartbeat(_, _) => true
    case Refused(_, _) => true
    case Pass(_) => true
  }

  function Next(s: System, step: Step): System {
    match step
    case ReadGeneration(p, readable) =>
      var generation := if readable then Some(s.table.generation) else None;
      s.(resolvers := s.resolvers[p := HasGeneration(generation)])
    case LoadSpec(p) =>
      var r := ResolverOf(s, p);
      if s.registered.None? || !r.HasGeneration? then s.(resolvers := s.resolvers[p := Idle])
      else s.(resolvers := s.resolvers[p := HasSpec(r.generation, s.registered.value)])
    case RememberTarget(p, actor, route) =>
      var r := ResolverOf(s, p);
      if !r.HasSpec? then s
      else s.(table := Apply(s.table, Op.Remember(actor, route, r.generation)),
              resolvers := s.resolvers[p := Idle])
    case GiveUp(p) => s.(resolvers := s.resolvers[p := Idle])
    case Lock => s.(deployer := Locked)
    case Retire => s.(table := Apply(s.table, RemoveProject("")), dirty := false, deployer := Retired)
    case Register(configKey) => s.(registered := Some(configKey), dirty := true, deployer := Changed)
    case Unregister => s.(registered := None, dirty := true, deployer := Changed)
    case RetireAgain => s.(table := Apply(s.table, RemoveProject("")), dirty := false, deployer := Unlocked)
    case Abandon => s.(deployer := Unlocked)
    case OtherProject(project) => s.(table := Apply(s.table, RemoveProject(project)))
    case Report(actor, entry) => s.(table := Apply(s.table, Op.Put(actor, entry)))
    case Heartbeat(actor, identity) => s.(table := Apply(s.table, Op.Renew(actor, identity)))
    case Refused(actor, identity) => s.(table := Apply(s.table, Op.Remove(actor, identity)))
    case Pass(ms) => s.(table := Apply(s.table, Tick(ms)))
  }

  function Initial(registered: Option<string>): System {
    System(Table(map[], 0, 0), registered, false, Unlocked, map[])
  }

  function After(registered: Option<string>, steps: seq<Step>): System
    decreases |steps|
  {
    if steps == [] then Initial(registered)
    else Next(After(registered, steps[..|steps| - 1]), steps[|steps| - 1])
  }

  /** Every step of the run was enabled when it was taken. */
  ghost predicate Legal(registered: Option<string>, steps: seq<Step>) {
    forall i | 0 <= i < |steps| :: Enabled(After(registered, steps[..i]), steps[i])
  }

  lemma LegalExtends(registered: Option<string>, steps: seq<Step>, step: Step)
    requires Legal(registered, steps) && Enabled(After(registered, steps), step)
    ensures Legal(registered, steps + [step])
    ensures After(registered, steps + [step]) == Next(After(registered, steps), step)
  {
    hide Next, Enabled;
    var more := steps + [step];
    assert more[..|steps|] == steps;
    assert forall i | 0 <= i < |steps| :: more[..i] == steps[..i];
  }

  // ----- the invariant -----

  ghost predicate EntryCurrent(s: System, actor: ActorKey)
    requires actor in s.table.entries
  {
    var stamped := s.table.entries[actor];
    && stamped.generation <= s.table.generation
    && (stamped.entry.Active? && stamped.generation == s.table.generation && !s.dirty ==>
          s.registered == Some(stamped.entry.route.configKey))
  }

  ghost predicate ResolverCurrent(s: System, p: nat)
    requires p in s.resolvers
  {
    var r := s.resolvers[p];
    && (!r.Idle? && r.generation.Some? ==> r.generation.value <= s.table.generation)
    && (r.HasSpec? && r.generation == Some(s.table.generation) && !s.dirty ==>
          s.registered == Some(r.configKey))
  }

  ghost predicate Inv(s: System) {
    && (forall actor | actor in s.table.entries :: EntryCurrent(s, actor))
    && (forall p | p in s.resolvers :: ResolverCurrent(s, p))
  }

  lemma StepKeepsInv(s: System, step: Step)
    requires Inv(s) && Enabled(s, step)
    ensures Inv(Next(s, step))
  {
    var s' := Next(s, step);
    forall actor | actor in s'.table.entries ensures EntryCurrent(s', actor) {
      if actor in s.table.entries { assert EntryCurrent(s, actor); }
      if step.RememberTarget? && step.p in s.resolvers { assert ResolverCurrent(s, step.p); }
    }
    forall p | p in s'.resolvers ensures ResolverCurrent(s', p) {
      if p in s.resolvers { assert ResolverCurrent(s, p); }
    }
  }

  lemma {:induction false} RunKeepsInv(registered: Option<string>, steps: seq<Step>)
    requires Legal(registered, steps)
    ensures Inv(After(registered, steps))
    decreases |steps|
  {
    if steps != [] {
      var init := steps[..|steps| - 1];
      assert forall i | 0 <= i < |init| :: init[..i] == steps[..i];
      RunKeepsInv(registered, init);
      StepKeepsInv(After(registered, init), steps[|steps| - 1]);
    }
  }

  predicate Changes(step: Step) {
    step.Register? || step.Unregister?
  }

  predicate Retires(step: Step) {
    step.Retire? || step.RetireAgain?
  }

  /** Every change of the registry is followed by a retirement of the project's routes. */
  ghost predicate Settled(steps: seq<Step>) {
    forall i | 0 <= i < |steps| && Changes(steps[i]) :: exists j | i < j < |steps| :: Retires(steps[j])
  }

  lemma {:induction false} SettledIsClean(registered: Option<string>, steps: seq<Step>)
    ensures Settled(steps) <==> !After(registered, steps).dirty
    decreases |steps|
  {
    if steps != [] {
      var init, last := steps[..|steps| - 1], steps[|steps| - 1];
      SettledIsClean(registered, init);
      if Retires(last) {
        assert forall i | 0 <= i < |steps| && Changes(steps[i]) :: i < |init|;
      } else if Changes(last) {
        assert steps[|init|] == last;
      } else {
        SettledExtends(init, last);
        assert steps == init + [last];
      }
    }
  }

  lemma SettledExtends(init: seq<Step>, last: Step)
    requires !Changes(last) && !Retires(last)
    ensures Settled(init + [last]) <==> Settled(init)
  {
    var steps := init + [last];
    if Settled(init) {
      forall i | 0 <= i < |steps| && Changes(steps[i]) ensures exists j | i < j < |steps| :: Retires(steps[j]) {
        assert i < |init| && Changes(init[i]);
        var j :| i < j < |init| && Retires(init[j]);
        assert Retires(steps[j]);
      }
    }
    if Settled(steps) {
      forall i | 0 <= i < |init| && Changes(init[i]) ensures exists j | i < j < |init| :: Retires(init[j]) {
        assert Changes(steps[i]);
        var j :| i < j < |steps| && Retires(steps[j]);
        assert Retires(init[j]);
      }
    }
  }

  /** In every interleaving in which the last change of the registry is followed by a retirement, a
      cached Active route was resolved from the deployment that is registered now. */
  lemma CacheFollowsDeployment(registered: Option<string>, steps: seq<Step>, actor: ActorKey)
    requires Legal(registered, steps) && Settled(steps)
    ensures var s := After(registered, steps);
      var got := s.table.Get(actor);
      got.Some? && got.value.Active? ==> s.registered == Some(got.value.route.configKey)
  {
    RunKeepsInv(registered, steps);
    SettledIsClean(registered, steps);
    var s := After(registered, steps);
    if actor in s.table.entries { assert EntryCurrent(s, actor); }
  }

  function Resolving(key: string): Route {
    Route(Identity("h", "s", 1), "", "", key, false)
  }

  function Race(actor: ActorKey): seq<Step> {
    [Lock, Retire, ReadGeneration(0, true), LoadSpec(0), Register("new"),
     RememberTarget(0, actor, Resolving("old"))]
  }

  /** The race's states before its last step. */
  function RaceState(n: nat): System {
    var t0, t1 := Table(map[], 0, 0), Table(map[], 1, 0);
    if n == 0 then Initial(Some("old"))
    else if n == 1 then System(t0, Some("old"), false, Locked, map[])
    else if n == 2 then System(t1, Some("old"), false, Retired, map[])
    else if n == 3 then System(t1, Some("old"), false, Retired, map[0 := HasGeneration(Some(1))])
    else if n == 4 then System(t1, Some("old"), false, Retired, map[0 := HasSpec(Some(1), "old")])
    else System(t1, Some("new"), true, Changed, map[0 := HasSpec(Some(1), "old")])
  }

  lemma {:induction false} RaceUnfolds(actor: ActorKey, n: nat)
    requires n <= 5
    ensures After(Some("old"), Race(actor)[..n]) == RaceState(n)
    ensures Enabled(RaceState(n), Race(actor)[n])
  {
    var steps := Race(actor);
    if n > 0 {
      RaceUnfolds(actor, n - 1);
      assert steps[..n][..n - 1] == steps[..n - 1];
      assert Next(RaceState(n - 1), steps[n - 1]) == RaceState(n);
    }
  }

  /** The window is real: between the registry change and the last retirement, a resolution that
      started after the first retirement still leaves the old deployment's route in the cache. */
  lemma WindowBeforeLastRetirement(actor: ActorKey)
    ensures Legal(Some("old"), Race(actor)) && !Settled(Race(actor))
    ensures var s := After(Some("old"), Race(actor));
      s.registered == Some("new") && s.table.Get(actor) == Some(Active(Resolving("old")))
  {
    SettledIsClean(Some("old"), Race(actor));
    forall n | 0 <= n < |Race(actor)| ensures Enabled(After(Some("old"), Race(actor)[..n]), Race(actor)[n]) {
      RaceUnfolds(actor, n);
    }
    RaceUnfolds(actor, 5);
    assert Race(actor)[..|Race(actor)| - 1] == Race(actor)[..5];
  }
}
