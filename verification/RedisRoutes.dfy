/** The second route store: the same operations as Lua scripts over one Redis hash per actor and
    one counter per project. Lua compares epochs as IEEE doubles, so the two stores agree exactly
    as long as no write meets two different epochs that round to the same double. */
module RedisRoutes {
  import opened Actors
  import opened Wrappers
  import opened Routes

  // ----- doubles -----

  function Pow2(e: nat): (p: nat)
    ensures p > 0
  {
    if e == 0 then 1 else 2 * Pow2(e - 1)
  }

  const TWO53: nat := 9_007_199_254_740_992

  /** Binary digits of `n` beyond the 53 that a double's significand holds. */
  function Excess(n: nat): nat {
    if n < TWO53 then 0 else 1 + Excess(n / 2)
  }

  /** `n` rounded to a multiple of `unit`, ties to an even multiple. */
  function RoundTo(n: nat, unit: nat): nat
    requires unit > 0
  {
    var q, r := n / unit, n % unit;
    if 2 * r < unit || (2 * r == unit && q % 2 == 0) then q * unit else (q + 1) * unit
  }

  /** The double that `tonumber` reads an integer as. */
  function ToNumber(n: nat): nat {
    RoundTo(n, Pow2(Excess(n)))
  }

  lemma {:induction false} MulMonotone(a: nat, b: nat, unit: nat)
    requires a <= b
    ensures a * unit <= b * unit
  {
    assert b * unit == a * unit + (b - a) * unit;
  }

  lemma QuotientBounds(n: nat, unit: nat, q: nat)
    requires unit > 0
    ensures n / unit * unit <= n < (n / unit + 1) * unit
    ensures n < (q + 1) * unit <==> n / unit <= q
    ensures q * unit <= n <==> q <= n / unit
  {
    var k := n / unit;
    assert n == k * unit + n % unit;
    if k <= q { MulMonotone(k + 1, q + 1, unit); } else { MulMonotone(q + 1, k, unit); }
    if q <= k { MulMonotone(q, k, unit); } else { MulMonotone(k + 1, q, unit); }
  }

  lemma RoundToBounds(n: nat, unit: nat, q: nat)
    requires unit > 0
    ensures n < (q + 1) * unit ==> RoundTo(n, unit) <= (q + 1) * unit
    ensures q * unit <= n ==> q * unit <= RoundTo(n, unit)
  {
    var k := n / unit;
    QuotientBounds(n, unit, q);
    MulMonotone(k, k + 1, unit);
    if k <= q { MulMonotone(k + 1, q + 1, unit); }
    if q <= k { MulMonotone(q, k, unit); }
  }

  function Distance(a: nat, b: nat): nat {
    if a < b then b - a else a - b
  }

  /** Of the two multiples around `n`, the one rounded to. */
  function Nearer(n: nat, lo: nat, unit: nat, even: bool): nat
    requires lo <= n < lo + unit
  {
    if 2 * (n - lo) < unit || (2 * (n - lo) == unit && even) then lo else lo + unit
  }

  lemma NearerIsNearest(n: nat, lo: nat, unit: nat, even: bool, p: nat)
    requires lo <= n < lo + unit && (p <= lo || lo + unit <= p)
    ensures Distance(Nearer(n, lo, unit, even), n) <= Distance(p, n)
    ensures Distance(Nearer(n, lo, unit, even), n) == Distance(p, n) && Nearer(n, lo, unit, even) != p ==>
      Nearer(n, lo, unit, even) == if even then lo else lo + unit
  {
  }

  lemma RoundToIsNearer(n: nat, unit: nat)
    requires unit > 0
    ensures var k := n / unit;
      k * unit <= n < k * unit + unit && RoundTo(n, unit) == Nearer(n, k * unit, unit, k % 2 == 0)
  {
    var k := n / unit;
    assert n == k * unit + n % unit && (k + 1) * unit == k * unit + unit;
  }

  lemma NextMultiple(k: nat, unit: nat)
    ensures (k + 1) * unit == k * unit + unit
  {
  }

  lemma HalvesEven(k: nat, unit: nat)
    requires k % 2 == 0
    ensures k * unit == 2 * (k / 2) * unit
  {
    assert k == 2 * (k / 2);
  }

  /** No multiple of the unit is nearer, and of two that are equally near an even one is taken. */
  lemma RoundToNearest(n: nat, unit: nat, m: nat)
    requires unit > 0
    ensures Distance(RoundTo(n, unit), n) <= Distance(m * unit, n)
    ensures Distance(RoundTo(n, unit), n) == Distance(m * unit, n) && RoundTo(n, unit) != m * unit ==>
      exists q :: RoundTo(n, unit) == 2 * q * unit
  {
    hide RoundTo, Nearer, Distance;
    var k := n / unit;
    RoundToIsNearer(n, unit);
    NextMultiple(k, unit);
    if m <= k { MulMonotone(m, k, unit); } else { MulMonotone(k + 1, m, unit); }
    NearerIsNearest(n, k * unit, unit, k % 2 == 0, m * unit);
    if k % 2 == 0 { HalvesEven(k, unit); } else { HalvesEven(k + 1, unit); }
  }

  lemma RoundToMonotone(n: nat, m: nat, unit: nat)
    requires unit > 0 && n <= m
    ensures RoundTo(n, unit) <= RoundTo(m, unit)
  {
    var k, l := n / unit, m / unit;
    QuotientBounds(n, unit, l);
    QuotientBounds(m, unit, l);
    if k < l {
      QuotientBounds(n, unit, l - 1);
      RoundToBounds(n, unit, l - 1);
      RoundToBounds(m, unit, l);
    } else {
      RoundSameQuotient(n, m, unit, k);
    }
  }

  lemma RoundSameQuotient(n: nat, m: nat, unit: nat, k: nat)
    requires unit > 0 && n <= m && n / unit == m / unit == k
    ensures RoundTo(n, unit) <= RoundTo(m, unit)
  {
    assert n == k * unit + n % unit && m == k * unit + m % unit;
    MulMonotone(k, k + 1, unit);
  }

  lemma {:induction false} ExcessBounds(n: nat)
    ensures n < TWO53 * Pow2(Excess(n))
    ensures Excess(n) > 0 ==> TWO53 / 2 * Pow2(Excess(n)) <= n
  {
    if n >= TWO53 {
      ExcessBounds(n / 2);
      var p := Pow2(Excess(n / 2));
      assert Pow2(Excess(n)) == 2 * p;
      if Excess(n / 2) == 0 { assert p == 1; }
    }
  }

  lemma {:induction false} ExcessMonotone(n: nat, m: nat)
    requires n <= m
    ensures Excess(n) <= Excess(m)
  {
    if n >= TWO53 { ExcessMonotone(n / 2, m / 2); }
  }

  lemma {:induction false} Pow2Monotone(e: nat, f: nat)
    requires e <= f
    ensures Pow2(e) <= Pow2(f)
  {
    if e < f { Pow2Monotone(e, f - 1); }
  }

  lemma RoundAcross(n: nat, m: nat, p: nat, q: nat, half: nat)
    requires 0 < p && 2 * p <= q && half > 0
    requires n < (2 * half) * p && half * q <= m
    ensures RoundTo(n, p) <= RoundTo(m, q)
  {
    RoundToBounds(n, p, 2 * half - 1);
    RoundToBounds(m, q, half);
    MulMonotone(2 * p, q, half);
    assert (2 * half) * p == (2 * p) * half && half * q == q * half;
  }

  lemma ToNumberMonotone(n: nat, m: nat)
    requires n <= m
    ensures ToNumber(n) <= ToNumber(m)
  {
    var e, f := Excess(n), Excess(m);
    ExcessMonotone(n, m);
    if e == f {
      RoundToMonotone(n, m, Pow2(e));
    } else {
      ExcessBounds(n);
      ExcessBounds(m);
      Pow2Monotone(e, f - 1);
      RoundAcross(n, m, Pow2(e), Pow2(f), TWO53 / 2);
    }
  }

  lemma ToNumberExact(n: nat)
    requires n <= TWO53
    ensures ToNumber(n) == n
  {
    if n == TWO53 {
      assert Excess(n / 2) == 0 && Pow2(1) == 2 * Pow2(0);
    }
  }

  // ----- the scripts -----

  /** The hash of one actor: what was written, the fields the scripts compare, and its expiry. */
  datatype Hash = Hash(generation: nat, identity: Identity, epoch: nat, rank: nat, entry: Entry, deadline: nat)

  datatype Store = Store(hashes: map<ActorKey, Hash>, counters: map<string, nat>, now: nat) {

    /** `GET` of the project's counter, or zero. */
    function Generation(project: string): nat {
      if project in counters then counters[project] else 0
    }

    function Live(actor: ActorKey): Option<Hash> {
      if actor in hashes && now < hashes[actor].deadline then Some(hashes[actor]) else None
    }

    /** CURRENT_ENTRY */
    function Get(actor: ActorKey): Option<Entry> {
      var h := Live(actor);
      if h.Some? && (h.value.rank != 0 || h.value.generation == Generation(actor.project))
      then Some(h.value.entry) else None
    }

    /** PUT_ENTRY */
    function Write(actor: ActorKey, entry: Entry, observed: Option<nat>): Store {
      var generation := Generation(actor.project);
      if observed.Some? && observed.value != generation then this
      else
        var h := Live(actor);
        var current := if h.Some? && h.value.rank == 0 && h.value.generation != generation then None else h;
        if current.Some? && current.value.identity == entry.Of() && entry.Rank() < current.value.rank then this
        else if && current.Some? && current.value.identity != entry.Of()
                && ToNumber(entry.Of().epoch) <= ToNumber(current.value.epoch) then this
        else
          this.(hashes := hashes[actor :=
            Hash(generation, entry.Of(), entry.Of().epoch, entry.Rank(), entry, now + entry.Lifetime())])
    }

    /** IF_ACTIVE with PEXPIRE */
    function Renew(actor: ActorKey, identity: Identity): Store {
      var h := Live(actor);
      if h.Some? && h.value.identity == identity && h.value.rank == 0 then
        this.(hashes := hashes[actor := h.value.(deadline := now + LIVENESS)])
      else this
    }

    /** IF_ACTIVE with DEL */
    function Remove(actor: ActorKey, identity: Identity): Store {
      var h := Live(actor);
      if h.Some? && h.value.identity == identity && h.value.rank == 0 then this.(hashes := hashes - {actor}) else this
    }
  }

  function ApplyScript(s: Store, op: Op): Store {
    match op
    case Put(actor, entry) => s.Write(actor, entry, None)
    case Remember(actor, route, observed) =>
      if observed.Some? then s.Write(actor, Active(route), observed) else s
    case Renew(actor, identity) => s.Renew(actor, identity)
    case Remove(actor, identity) => s.Remove(actor, identity)
    case RemoveProject(project) => s.(counters := s.counters[project := s.Generation(project) + 1])
    case Tick(ms) => s.(now := s.now + ms)
  }

  function RunScripts(s: Store, ops: seq<Op>): Store
    decreases ops
  {
    if ops == [] then s else RunScripts(ApplyScript(s, ops[0]), ops[1..])
  }

  // ----- agreement -----

  predicate InProject(op: Op, project: string) {
    match op
    case RemoveProject(p) => p == project
    case Tick(_) => true
    case _ => op.actor.project == project
  }

  /** The hash holds the same entry, stamp and expiry as the in-memory cache. */
  predicate Matches(stamped: Option<Stamped>, hash: Option<Hash>) {
    match (stamped, hash)
    case (None, None) => true
    case (Some(m), Some(h)) =>
      h == Hash(m.generation, m.entry.Of(), m.entry.Of().epoch, m.entry.Rank(), m.entry, m.deadline)
    case _ => false
  }

  ghost predicate Agree(t: Table, s: Store, project: string) {
    && s.now == t.now
    && s.Generation(project) == t.generation
    && forall actor: ActorKey | actor.project == project :: Matches(t.Current(actor), s.Live(actor))
  }

  /** The write meets a visible entry of another activation whose smaller epoch is the same double. */
  predicate WriteConflates(t: Table, actor: ActorKey, entry: Entry) {
    var got := t.Get(actor);
    && got.Some?
    && got.value.Of() != entry.Of()
    && got.value.Of().epoch < entry.Of().epoch
    && ToNumber(got.value.Of().epoch) == ToNumber(entry.Of().epoch)
  }

  predicate Conflates(t: Table, op: Op) {
    match op
    case Put(actor, entry) => WriteConflates(t, actor, entry)
    case Remember(actor, route, observed) =>
      observed == Some(t.generation) && WriteConflates(t, actor, Active(route))
    case _ => false
  }

  /** Unless it conflates epochs, Lua's comparison is the comparison of the epochs themselves. */
  lemma ComparisonAgrees(t: Table, actor: ActorKey, entry: Entry)
    requires t.Get(actor).Some? && !WriteConflates(t, actor, entry)
    requires t.Get(actor).value.Of() != entry.Of()
    ensures var older := t.Get(actor).value.Of().epoch;
      ToNumber(entry.Of().epoch) <= ToNumber(older) <==> entry.Of().epoch <= older
  {
    var older, newer := t.Get(actor).value.Of().epoch, entry.Of().epoch;
    if older < newer { ToNumberMonotone(older, newer); } else { ToNumberMonotone(newer, older); }
  }

  lemma WriteAgreesHere(t: Table, s: Store, actor: ActorKey, entry: Entry, observed: Option<nat>)
    requires s.now == t.now && s.Generation(actor.project) == t.generation
    requires Matches(t.Current(actor), s.Live(actor))
    requires !WriteConflates(t, actor, entry) || (observed.Some? && observed.value != t.generation)
    ensures Matches(t.Write(actor, entry, observed).Current(actor), s.Write(actor, entry, observed).Live(actor))
  {
    if t.Get(actor).Some? && t.Get(actor).value.Of() != entry.Of() && !WriteConflates(t, actor, entry) {
      ComparisonAgrees(t, actor, entry);
    }
  }

  lemma WriteAgrees(t: Table, s: Store, project: string, actor: ActorKey, entry: Entry, observed: Option<nat>)
    requires Agree(t, s, project) && actor.project == project
    requires !WriteConflates(t, actor, entry) || (observed.Some? && observed.value != t.generation)
    ensures Agree(t.Write(actor, entry, observed), s.Write(actor, entry, observed), project)
  {
    var t', s' := t.Write(actor, entry, observed), s.Write(actor, entry, observed);
    forall a: ActorKey | a.project == project ensures Matches(t'.Current(a), s'.Live(a)) {
      assert Matches(t.Current(a), s.Live(a));
      if a == actor {
        WriteAgreesHere(t, s, actor, entry, observed);
      } else {
        assert t'.Current(a) == t.Current(a) && s'.Live(a) == s.Live(a);
      }
    }
  }

  lemma WriteDisagrees(t: Table, s: Store, project: string, actor: ActorKey, entry: Entry, observed: Option<nat>)
    requires Agree(t, s, project) && actor.project == project
    requires WriteConflates(t, actor, entry) && (observed.Some? ==> observed.value == t.generation)
    ensures t.Write(actor, entry, observed).Get(actor) == Some(entry)
    ensures s.Write(actor, entry, observed).Get(actor) == t.Get(actor) != Some(entry)
  {
    assert Matches(t.Current(actor), s.Live(actor));
  }

  /** One operation keeps the two stores in agreement if and only if it does not make Lua take a
      newer epoch for one that is not newer. */
  lemma StepAgrees(t: Table, s: Store, project: string, op: Op)
    requires Agree(t, s, project) && InProject(op, project)
    ensures Agree(Apply(t, op), ApplyScript(s, op), project) <==> !Conflates(t, op)
  {
    var t', s' := Apply(t, op), ApplyScript(s, op);
    match op {
      case Put(actor, entry) =>
        if Conflates(t, op) {
          WriteDisagrees(t, s, project, actor, entry, None);
          AgreeGets(t', s', project, actor);
        } else {
          WriteAgrees(t, s, project, actor, entry, None);
        }
      case Remember(actor, route, observed) =>
        if Conflates(t, op) {
          WriteDisagrees(t, s, project, actor, Active(route), observed);
          AgreeGets(t', s', project, actor);
        } else if observed.Some? {
          WriteAgrees(t, s, project, actor, Active(route), observed);
        }
      case _ =>
        forall a: ActorKey | a.project == project ensures Matches(t'.Current(a), s'.Live(a)) {
          assert Matches(t.Current(a), s.Live(a));
        }
    }
  }

  lemma AgreeGets(t: Table, s: Store, project: string, actor: ActorKey)
    requires actor.project == project
    ensures Agree(t, s, project) ==> t.Get(actor) == s.Get(actor)
  {
    if Agree(t, s, project) { assert Matches(t.Current(actor), s.Live(actor)); }
  }

  /** Some write of the run conflates epochs at the moment it is applied. */
  predicate EverConflates(t: Table, ops: seq<Op>)
    decreases ops
  {
    ops != [] && (Conflates(t, ops[0]) || EverConflates(Apply(t, ops[0]), ops[1..]))
  }

  lemma {:induction false} RunsAgree(t: Table, s: Store, project: string, ops: seq<Op>)
    requires Agree(t, s, project)
    requires forall op | op in ops :: InProject(op, project)
    requires !EverConflates(t, ops)
    ensures Agree(Run(t, ops), RunScripts(s, ops), project)
    decreases ops
  {
    if ops != [] {
      assert ops[0] in ops;
      StepAgrees(t, s, project, ops[0]);
      RunsAgree(Apply(t, ops[0]), ApplyScript(s, ops[0]), project, ops[1..]);
    }
  }

  /** Two empty stores that serve one project answer every lookup alike after any run of
      operations that never conflates two epochs. */
  lemma StoresAgree(project: string, actor: ActorKey, ops: seq<Op>)
    requires actor.project == project
    requires forall op | op in ops :: InProject(op, project)
    requires !EverConflates(Table(map[], 0, 0), ops)
    ensures Run(Table(map[], 0, 0), ops).Get(actor) == RunScripts(Store(map[], map[], 0), ops).Get(actor)
  {
    var t, s := Table(map[], 0, 0), Store(map[], map[], 0);
    RunsAgree(t, s, project, ops);
    AgreeGets(Run(t, ops), RunScripts(s, ops), project, actor);
  }

  /** The two stores answer every lookup in the project alike now and after each further operation. */
  ghost predicate AnswerAlike(t: Table, s: Store, project: string, ops: seq<Op>)
    decreases ops
  {
    && (forall actor: ActorKey | actor.project == project :: t.Get(actor) == s.Get(actor))
    && (ops != [] ==> AnswerAlike(Apply(t, ops[0]), ApplyScript(s, ops[0]), project, ops[1..]))
  }

  lemma ConflationShows(t: Table, s: Store, project: string, op: Op)
    requires Agree(t, s, project) && InProject(op, project) && Conflates(t, op)
    ensures op.Put? || op.Remember?
    ensures Apply(t, op).Get(op.actor) != ApplyScript(s, op).Get(op.actor)
  {
    match op
    case Put(actor, entry) => WriteDisagrees(t, s, project, actor, entry, None);
    case Remember(actor, route, observed) => WriteDisagrees(t, s, project, actor, Active(route), observed);
  }

  lemma {:induction false} RunsAnswerAlike(t: Table, s: Store, project: string, ops: seq<Op>)
    requires Agree(t, s, project) && forall op | op in ops :: InProject(op, project)
    ensures AnswerAlike(t, s, project, ops) <==> !EverConflates(t, ops)
    decreases ops
  {
    forall actor: ActorKey | actor.project == project ensures t.Get(actor) == s.Get(actor) {
      AgreeGets(t, s, project, actor);
    }
    if ops != [] {
      var op := ops[0];
      assert op in ops;
      StepAgrees(t, s, project, op);
      if Conflates(t, op) {
        ConflationShows(t, s, project, op);
      } else {
        RunsAnswerAlike(Apply(t, op), ApplyScript(s, op), project, ops[1..]);
      }
    }
  }

  /** Serving one project from empty, the two stores give the same answers throughout a run if and
      only if no write of the run conflates two epochs. */
  lemma StoresAgreeExactly(project: string, ops: seq<Op>)
    requires forall op | op in ops :: InProject(op, project)
    ensures AnswerAlike(Table(map[], 0, 0), Store(map[], map[], 0), project, ops) <==>
            !EverConflates(Table(map[], 0, 0), ops)
  {
    RunsAnswerAlike(Table(map[], 0, 0), Store(map[], map[], 0), project, ops);
  }

  // ----- when epochs can be conflated -----

  predicate SafeEpochs(op: Op) {
    match op
    case Put(_, entry) => entry.Of().epoch <= TWO53
    case Remember(_, route, _) => route.identity.epoch <= TWO53
    case _ => true
  }

  ghost predicate SafeTable(t: Table) {
    forall actor | actor in t.entries :: t.entries[actor].entry.Of().epoch <= TWO53
  }

  lemma {:induction false} SafeEpochsNeverConflate(t: Table, ops: seq<Op>)
    requires SafeTable(t) && forall op | op in ops :: SafeEpochs(op)
    ensures !EverConflates(t, ops)
    decreases ops
  {
    if ops != [] {
      var op := ops[0];
      assert op in ops;
      if op.Put? || op.Remember? {
        var entry := if op.Put? then op.entry else Active(op.route);
        ToNumberExact(entry.Of().epoch);
        if t.Get(op.actor).Some? { ToNumberExact(t.Get(op.actor).value.Of().epoch); }
      }
      SafeEpochsNeverConflate(Apply(t, op), ops[1..]);
    }
  }

  /** Hosts refuse ownership epochs above 2^53 - 1; for those the two stores always agree. */
  lemma StoresAgreeOnServedEpochs(project: string, actor: ActorKey, ops: seq<Op>)
    requires actor.project == project
    requires forall op | op in ops :: InProject(op, project) && SafeEpochs(op)
    ensures Run(Table(map[], 0, 0), ops).Get(actor) == RunScripts(Store(map[], map[], 0), ops).Get(actor)
  {
    SafeEpochsNeverConflate(Table(map[], 0, 0), ops);
    StoresAgree(project, actor, ops);
  }

  lemma ToNumberConflates()
    ensures ToNumber(TWO53 + 1) == TWO53 == ToNumber(TWO53)
  {
    ToNumberExact(TWO53);
    assert Excess((TWO53 + 1) / 2) == 0 && Pow2(1) == 2 * Pow2(0);
  }

  /** Beyond that the stores part ways: the in-memory store moves on to the activation with epoch
      2^53 + 1, while the scripted one keeps answering with the one before it. */
  lemma StoresDisagreeBeyondDoubles(actor: ActorKey)
    ensures var older, newer := Stopped(Identity("a", "s", TWO53)), Stopped(Identity("b", "s", TWO53 + 1));
      var ops := [Op.Put(actor, older), Op.Put(actor, newer)];
      && Run(Table(map[], 0, 0), ops).Get(actor) == Some(newer)
      && RunScripts(Store(map[], map[], 0), ops).Get(actor) == Some(older)
  {
    ToNumberConflates();
    var older, newer := Stopped(Identity("a", "s", TWO53)), Stopped(Identity("b", "s", TWO53 + 1));
    var ops := [Op.Put(actor, older), Op.Put(actor, newer)];
    var t, s := Table(map[], 0, 0), Store(map[], map[], 0);
    var t1, s1 := Apply(t, ops[0]), ApplyScript(s, ops[0]);
    assert ops[1..] == [ops[1]] && ops[1..][1..] == [];
    assert Run(t, ops) == Run(t1, ops[1..]) == Apply(t1, ops[1]);
    assert RunScripts(s, ops) == RunScripts(s1, ops[1..]) == ApplyScript(s1, ops[1]);
  }

  // ----- shutdown entries hold in the scripted store -----

  /** Each hash repeats the fields of its entry and lives no longer than a lifetime from now; true of
      the empty store and kept by every script. */
  ghost predicate WellKept(s: Store) {
    forall actor | actor in s.hashes ::
      var h := s.hashes[actor];
      && h.identity == h.entry.Of() && h.epoch == h.entry.Of().epoch && h.rank == h.entry.Rank()
      && h.deadline <= s.now + h.entry.Lifetime()
  }

  lemma ScriptsKeepWell(s: Store, op: Op)
    requires WellKept(s)
    ensures WellKept(ApplyScript(s, op))
  {
  }

  predicate ScriptedShutDown(s: Store, actor: ActorKey, identity: Identity) {
    var got := s.Get(actor);
    got.Some? && !got.value.Active? && got.value.Of() == identity
  }

  /** An accepted write by an activation whose epoch is the greater double. */
  predicate ScriptOvertakes(s: Store, op: Op, actor: ActorKey, identity: Identity) {
    match op
    case Put(a, entry) =>
      a == actor && entry.Of() != identity && ToNumber(entry.Of().epoch) > ToNumber(identity.epoch)
    case Remember(a, route, observed) =>
      && a == actor && observed == Some(s.Generation(actor.project))
      && route.identity != identity && ToNumber(route.identity.epoch) > ToNumber(identity.epoch)
    case _ => false
  }

  predicate ScriptExpires(s: Store, op: Op, actor: ActorKey) {
    op.Tick? && actor in s.hashes && s.hashes[actor].deadline <= s.now + op.ms
  }

  /** One operation ends a shutdown in the scripted store exactly when it overtakes or expires it. */
  lemma ScriptedShutdownStep(s: Store, op: Op, actor: ActorKey, identity: Identity)
    requires WellKept(s) && ScriptedShutDown(s, actor, identity)
    ensures ScriptedShutDown(ApplyScript(s, op), actor, identity) <==>
      !ScriptOvertakes(s, op, actor, identity) && !ScriptExpires(s, op, actor)
    ensures ScriptedShutDown(ApplyScript(s, op), actor, identity) ==>
      && ApplyScript(s, op).Get(actor).value.Rank() >= s.Get(actor).value.Rank()
      && ApplyScript(s, op).hashes[actor].deadline >= s.hashes[actor].deadline
  {
    hide ToNumber;
  }

  /** Some operation of the run writes for the actor under a greater epoch. */
  predicate Outgrown(ops: seq<Op>, actor: ActorKey, identity: Identity) {
    exists i | 0 <= i < |ops| ::
      || (ops[i].Put? && ops[i].actor == actor && ops[i].entry.Of().epoch > identity.epoch)
      || (ops[i].Remember? && ops[i].actor == actor && ops[i].route.identity.epoch > identity.epoch)
  }

  lemma NotOutgrown(s: Store, op: Op, actor: ActorKey, identity: Identity)
    requires !Outgrown([op], actor, identity)
    ensures !ScriptOvertakes(s, op, actor, identity)
  {
    var ops := [op];
    assert ops[0] == op;
    match op
    case Put(_, entry) =>
      if entry.Of().epoch <= identity.epoch { ToNumberMonotone(entry.Of().epoch, identity.epoch); }
    case Remember(_, route, _) =>
      if route.identity.epoch <= identity.epoch { ToNumberMonotone(route.identity.epoch, identity.epoch); }
    case _ =>
  }

  /** For epochs of any size, until its retention runs out or a greater epoch writes, a shutdown in the
      scripted store answers every lookup, whatever scripts run, and only ever moves from Draining to
      Stopped. */
  lemma {:induction false} ScriptedShutdownHolds(s: Store, ops: seq<Op>, actor: ActorKey, identity: Identity)
    requires WellKept(s) && ScriptedShutDown(s, actor, identity) && !Outgrown(ops, actor, identity)
    requires s.now + Elapsed(ops) < s.hashes[actor].deadline
    ensures ScriptedShutDown(RunScripts(s, ops), actor, identity)
    ensures RunScripts(s, ops).Get(actor).value.Rank() >= s.Get(actor).value.Rank()
    decreases ops
  {
    hide WellKept, ScriptOvertakes, ToNumber;
    if ops != [] {
      assert forall i | 0 <= i < |ops| - 1 :: ops[1..][i] == ops[i + 1];
      NotOutgrown(s, ops[0], actor, identity);
      ScriptedShutdownStep(s, ops[0], actor, identity);
      ScriptsKeepWell(s, ops[0]);
      ScriptedShutdownHolds(ApplyScript(s, ops[0]), ops[1..], actor, identity);
    }
  }

  // ----- the scripted store as a memory store that refuses more -----

  /** The operation the in-memory store would have to take to do what the scripts do. */
  function Effective(t: Table, op: Op): Op {
    if Conflates(t, op) then Tick(0) else op
  }

  /** Whatever the epochs, a script does what the in-memory store does or refuses the write. */
  lemma ScriptsRefine(t: Table, s: Store, project: string, op: Op)
    requires Agree(t, s, project) && InProject(op, project)
    ensures Agree(Apply(t, Effective(t, op)), ApplyScript(s, op), project)
  {
    if Conflates(t, op) {
      RefusedWrite(t, s, project, op);
      assert Apply(t, Tick(0)) == t;
    } else {
      StepAgrees(t, s, project, op);
    }
  }

  lemma RefusedWrite(t: Table, s: Store, project: string, op: Op)
    requires Agree(t, s, project) && InProject(op, project) && Conflates(t, op)
    ensures ApplyScript(s, op) == s
  {
    assert Matches(t.Current(op.actor), s.Live(op.actor));
  }
}
