/** Resolutions, deployments and reports interleaved over the scripted route store, for epochs of any
    size. Each step does to the store what some step does to the in-memory cache. */
module RedisDeployments {
  import opened Actors
  import opened Wrappers
  import opened Routes
  import opened RedisRoutes
  import D = Deployments

  /** As with the in-memory cache, with the project's share of the scripted store in its place. */
  datatype System = System(store: Store, registered: Option<string>, deployer: D.Deployer, resolvers: map<nat, D.Resolver>)

  function ResolverOf(s: System, p: nat): D.Resolver {
    if p in s.resolvers then s.resolvers[p] else D.Idle
  }

  predicate Enabled(s: System, project: string, step: D.Step) {
    match step
    case ReadGeneration(p, _) => ResolverOf(s, p).Idle?
    case LoadSpec(p) => ResolverOf(s, p).HasGeneration?
    case RememberTarget(p, actor, route) =>
      actor.project == project && ResolverOf(s, p).HasSpec? && route.configKey == ResolverOf(s, p).configKey
    case GiveUp(_) => true
    case Lock => s.deployer.Unlocked?
    case Retire => s.deployer.Locked? && s.registered.Some?
    case Register(_) => s.deployer.Retired? || (s.deployer.Locked? && s.registered.None?)
    case Unregister => s.deployer.Retired?
    case RetireAgain => s.deployer.Changed?
    case Abandon => true
    case OtherProject(other) => other != project
    case Report(actor, entry) => actor.project == project && !entry.Active?
    case Heartbeat(actor, _) => actor.project == project
    case Refused(actor, _) => actor.project == project
    case Pass(_) => true
  }

  function Next(s: System, project: string, step: D.Step): System {
    match step
    case ReadGeneration(p, readable) =>
      var generation := if readable then Some(s.store.Generation(project)) else None;
      s.(resolvers := s.resolvers[p := D.HasGeneration(generation)])
    case LoadSpec(p) =>
      var r := ResolverOf(s, p);
      if s.registered.None? || !r.HasGeneration? then s.(resolvers := s.resolvers[p := D.Idle])
      else s.(resolvers := s.resolvers[p := D.HasSpec(r.generation, s.registered.value)])
    case RememberTarget(p, actor, route) =>
      var r := ResolverOf(s, p);
      if !r.HasSpec? then s
      else s.(store := ApplyScript(s.store, Op.Remember(actor, route, r.generation)),
              resolvers := s.resolvers[p := D.Idle])
    case GiveUp(p) => s.(resolvers := s.resolvers[p := D.Idle])
    case Lock => s.(deployer := D.Locked)
    case Retire => s.(store := ApplyScript(s.store, RemoveProject(project)), deployer := D.Retired)
    case Register(configKey) => s.(registered := Some(configKey), deployer := D.Changed)
    case Unregister => s.(registered := None, deployer := D.Changed)
    case RetireAgain => s.(store := ApplyScript(s.store, RemoveProject(project)), deployer := D.Unlocked)
    case Abandon => s.(deployer := D.Unlocked)
    case OtherProject(other) => s.(store := ApplyScript(s.store, RemoveProject(other)))
    case Report(actor, entry) => s.(store := ApplyScript(s.store, Op.Put(actor, entry)))
    case Heartbeat(actor, identity) => s.(store := ApplyScript(s.store, Op.Renew(actor, identity)))
    case Refused(actor, identity) => s.(store := ApplyScript(s.store, Op.Remove(actor, identity)))
    case Pass(ms) => s.(store := ApplyScript(s.store, Tick(ms)))
  }

  function After(registered: Option<string>, project: string, steps: seq<D.Step>): System
    decreases |steps|
  {
    if steps == [] then System(Store(map[], map[], 0), registered, D.Unlocked, map[])
    else Next(After(registered, project, steps[..|steps| - 1]), project, steps[|steps| - 1])
  }

  ghost predicate Legal(registered: Option<string>, project: string, steps: seq<D.Step>) {
    forall i | 0 <= i < |steps| :: Enabled(After(registered, project, steps[..i]), project, steps[i])
  }

  // ----- the simulation -----

  ghost predicate Simulates(m: D.System, s: System, project: string) {
    && Agree(m.table, s.store, project)
    && m.registered == s.registered && m.deployer == s.deployer && m.resolvers == s.resolvers
  }

  /** The step of the in-memory system that does the same: a write that the scripts refuse for its epoch
      is a resolution given up or a report that goes nowhere. */
  function Mirror(m: D.System, step: D.Step): D.Step {
    match step
    case RememberTarget(p, actor, route) =>
      var r := D.ResolverOf(m, p);
      if r.HasSpec? && Conflates(m.table, Op.Remember(actor, route, r.generation)) then D.GiveUp(p) else step
    case Report(actor, entry) => if Conflates(m.table, Op.Put(actor, entry)) then D.Pass(0) else step
    case OtherProject(_) => D.Pass(0)
    case _ => step
  }

  lemma OtherCounters(t: Table, s: Store, project: string, other: string)
    requires Agree(t, s, project) && other != project
    ensures Agree(t, ApplyScript(s, RemoveProject(other)), project)
  {
    var s' := ApplyScript(s, RemoveProject(other));
    forall a: ActorKey | a.project == project ensures Matches(t.Current(a), s'.Live(a)) {
      assert Matches(t.Current(a), s.Live(a));
    }
  }

  /** The script that a step runs, if it runs one. */
  function ScriptOf(s: System, project: string, step: D.Step): Op {
    match step
    case RememberTarget(p, actor, route) =>
      if ResolverOf(s, p).HasSpec? then Op.Remember(actor, route, ResolverOf(s, p).generation) else Tick(0)
    case Retire => RemoveProject(project)
    case RetireAgain => RemoveProject(project)
    case Report(actor, entry) => Op.Put(actor, entry)
    case Heartbeat(actor, identity) => Op.Renew(actor, identity)
    case Refused(actor, identity) => Op.Remove(actor, identity)
    case Pass(ms) => Tick(ms)
    case _ => Tick(0)
  }

  lemma StepSimulates(m: D.System, s: System, project: string, step: D.Step)
    requires Simulates(m, s, project) && Enabled(s, project, step)
    ensures D.Enabled(m, Mirror(m, step))
    ensures Simulates(D.Next(m, Mirror(m, step)), Next(s, project, step), project)
  {
    hide Agree, Conflates;
    if step.OtherProject? {
      OtherCounters(m.table, s.store, project, step.project);
      assert Apply(m.table, Tick(0)) == m.table;
    } else {
      GenerationsAgree(m.table, s.store, project);
      var op := ScriptOf(s, project, step);
      ScriptsRefine(m.table, s.store, project, op);
      StoreSteps(m, s, project, step);
    }
  }

  lemma GenerationsAgree(t: Table, s: Store, project: string)
    requires Agree(t, s, project)
    ensures s.Generation(project) == t.generation
  {
  }

  /** Both systems change their store by the same script, up to refusal. */
  lemma StoreSteps(m: D.System, s: System, project: string, step: D.Step)
    requires m.registered == s.registered && m.deployer == s.deployer && m.resolvers == s.resolvers
    requires Enabled(s, project, step) && !step.OtherProject?
    ensures Next(s, project, step).store == ApplyScript(s.store, ScriptOf(s, project, step))
    ensures D.Next(m, Mirror(m, step)).table == Apply(m.table, Effective(m.table, ScriptOf(s, project, step)))
  {
  }

  /** Two runs that change the registry and retire routes at the same places. */
  ghost predicate Alike(a: seq<D.Step>, b: seq<D.Step>) {
    && |a| == |b|
    && forall i | 0 <= i < |a| ::
         (D.Changes(b[i]) <==> D.Changes(a[i])) && (D.Retires(b[i]) <==> D.Retires(a[i]))
  }

  lemma {:induction false} RunSimulates(registered: Option<string>, project: string, steps: seq<D.Step>)
    returns (mirrored: seq<D.Step>)
    requires Legal(registered, project, steps)
    ensures D.Legal(registered, mirrored)
    ensures Simulates(D.After(registered, mirrored), After(registered, project, steps), project)
    ensures Alike(steps, mirrored)
    decreases |steps|
  {
    hide Next, D.Next, Enabled, D.Enabled, Mirror, Simulates, Alike;
    mirrored := [];
    if steps == [] {
      StartsAlike(registered, project);
    } else {
      var init, last := steps[..|steps| - 1], steps[|steps| - 1];
      assert forall i | 0 <= i < |init| :: init[..i] == steps[..i];
      var before := RunSimulates(registered, project, init);
      var m := D.After(registered, before);
      StepSimulates(m, After(registered, project, init), project, last);
      D.LegalExtends(registered, before, Mirror(m, last));
      mirrored := before + [Mirror(m, last)];
      MirrorsAlike(init, before, m, last);
      assert steps == init + [last];
    }
  }

  lemma StartsAlike(registered: Option<string>, project: string)
    ensures Simulates(D.After(registered, []), After(registered, project, []), project)
    ensures Alike([], [])
  {
  }

  lemma MirrorsAlike(a: seq<D.Step>, b: seq<D.Step>, m: D.System, step: D.Step)
    requires Alike(a, b)
    ensures Alike(a + [step], b + [Mirror(m, step)])
  {
  }

  lemma SettledAlike(a: seq<D.Step>, b: seq<D.Step>)
    requires Alike(a, b) && D.Settled(a)
    ensures D.Settled(b)
  {
    forall i | 0 <= i < |b| && D.Changes(b[i]) ensures exists j | i < j < |b| :: D.Retires(b[j]) {
      assert D.Changes(a[i]);
      var j :| i < j < |a| && D.Retires(a[j]);
      assert D.Retires(b[j]);
    }
  }

  /** The scripted store promises of deployments what the in-memory cache promises, whatever the size of
      the epochs: once the last change of the registry is followed by a retirement, no lookup answers
      with an Active route of another deployment. */
  lemma ScriptedCacheFollowsDeployment(
    registered: Option<string>, project: string, steps: seq<D.Step>, actor: ActorKey)
    requires Legal(registered, project, steps) && D.Settled(steps) && actor.project == project
    ensures var s := After(registered, project, steps);
      var got := s.store.Get(actor);
      got.Some? && got.value.Active? ==> s.registered == Some(got.value.route.configKey)
  {
    var mirrored := RunSimulates(registered, project, steps);
    SettledAlike(steps, mirrored);
    D.CacheFollowsDeployment(registered, mirrored, actor);
    AgreeGets(D.After(registered, mirrored).table, After(registered, project, steps).store, project, actor);
  }
}
