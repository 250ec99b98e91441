/** Which recorded owners invocations are sent to: the live ones of the deployment asked for, unless the
    cache knows, from some report, that the activation is shutting down. */
module Targets {
  import opened Actors
  import opened Wrappers
  import opened Routes
  import Base64

  const EMPTY: Table := Table(map[], 0, 0)

  // ----- hosts and deployments -----

  /** A deployment is named by the digest of what it runs. */
  function ConfigKey(digest: seq<Base64.byte>): string {
    "cfg." + Base64.Encode(digest)
  }

  function HostName(configKey: string, nonce: string): string {
    "host.v3." + configKey + "." + nonce
  }

  lemma FirstDots(a: string, b: string, rest: string)
    requires '.' !in a && '.' !in b && a + "." <= b + "." + rest
    ensures a == b
  {
    var long := b + "." + rest;
    assert (a + ".")[|a|] == long[|a|] == '.';
    assert forall i | 0 <= i < |a| :: a[i] == (a + ".")[i] == long[i];
    assert long[|b|] == '.';
    assert |a| == |b| && forall i | 0 <= i < |a| :: a[i] == b[i];
  }

  lemma NoDots(digest: seq<Base64.byte>)
    ensures '.' !in Base64.Encode(digest)
  {
    Base64.EncodeUsesAlphabet(digest);
    hide Base64.Encode;
    assert Base64.ValueOf('.').None?;
  }

  lemma CommonStart(p: string, a: string, b: string)
    ensures p + a <= p + b <==> a <= b
  {
    if a <= b { assert p + b == (p + a) + b[|a|..]; }
    if p + a <= p + b {
      forall i | 0 <= i < |a| ensures a[i] == b[i] {
        assert (p + a)[|p| + i] == (p + b)[|p| + i];
      }
    }
  }

  /** A host counts as one of the deployment it was launched for, and of no other. */
  lemma HostsMatchTheirDeployment(ours: seq<Base64.byte>, asked: seq<Base64.byte>, nonce: string)
    ensures HostMatchesConfig(HostName(ConfigKey(ours), nonce), ConfigKey(asked)) <==> ours == asked
  {
    var a, b := Base64.Encode(asked), Base64.Encode(ours);
    NoDots(ours);
    NoDots(asked);
    Base64.DecodeInvertsEncode(ours, "");
    Base64.DecodeInvertsEncode(asked, "");
    hide Base64.Encode, Base64.Decode;
    var prefix := "host.v3." + "cfg.";
    assert "host.v3." + ConfigKey(asked) + "." == prefix + (a + ".");
    assert HostName(ConfigKey(ours), nonce) == prefix + (b + "." + nonce);
    CommonStart(prefix, a + ".", b + "." + nonce);
    if a + "." <= b + "." + nonce { FirstDots(a, b, nonce); }
  }

  // ----- which shutdowns are in force -----

  /** The operation reports the shutdown of the activation, and the cache knows of no activation that
      came after it. */
  predicate Reports(t: Table, op: Op, actor: ActorKey, identity: Identity) {
    && op.Put? && op.actor == actor && !op.entry.Active? && op.entry.Of() == identity
    && (t.Get(actor).None? || t.Get(actor).value.Of() == identity || t.Get(actor).value.Of().epoch < identity.epoch)
  }

  predicate Ends(t: Table, op: Op, actor: ActorKey, identity: Identity) {
    Overtakes(t, op, actor, identity) || Expires(t, op, actor)
  }

  lemma ShutdownBegins(t: Table, op: Op, actor: ActorKey, identity: Identity)
    requires WellTimed(t)
    ensures ShutDown(Apply(t, op), actor, identity) <==>
      || Reports(t, op, actor, identity)
      || (ShutDown(t, actor, identity) && !Ends(t, op, actor, identity))
  {
    if ShutDown(t, actor, identity) { ShutdownStep(t, op, actor, identity); }
  }

  lemma {:induction false} RunExtends(t: Table, ops: seq<Op>, op: Op)
    ensures Run(t, ops + [op]) == Apply(Run(t, ops), op)
    decreases ops
  {
    hide Apply;
    if ops == [] {
      assert [op][1..] == [] && [] + [op] == [op];
    } else {
      assert (ops + [op])[1..] == ops[1..] + [op];
      RunExtends(Apply(t, ops[0]), ops[1..], op);
    }
  }

  lemma {:induction false} RunIsWellTimed(t: Table, ops: seq<Op>)
    requires WellTimed(t)
    ensures WellTimed(Run(t, ops))
    decreases ops
  {
    hide Apply, WellTimed;
    if ops != [] {
      ApplyWellTimed(t, ops[0]);
      RunIsWellTimed(Apply(t, ops[0]), ops[1..]);
    }
  }

  ghost predicate ReportsAt(ops: seq<Op>, i: int, actor: ActorKey, identity: Identity) {
    0 <= i < |ops| && Reports(Run(EMPTY, ops[..i]), ops[i], actor, identity)
  }

  ghost predicate EndsAt(ops: seq<Op>, i: int, actor: ActorKey, identity: Identity) {
    0 <= i < |ops| && Ends(Run(EMPTY, ops[..i]), ops[i], actor, identity)
  }

  /** The shutdown was reported, and since then neither overtaken by a later activation nor forgotten. */
  ghost predicate InForce(ops: seq<Op>, actor: ActorKey, identity: Identity) {
    exists i :: ReportsAt(ops, i, actor, identity) && forall j | j > i :: !EndsAt(ops, j, actor, identity)
  }

  lemma EarlierOps(ops: seq<Op>, op: Op, i: int, actor: ActorKey, identity: Identity)
    ensures ReportsAt(ops + [op], i, actor, identity) <==>
      if i == |ops| then Reports(Run(EMPTY, ops), op, actor, identity) else ReportsAt(ops, i, actor, identity)
    ensures EndsAt(ops + [op], i, actor, identity) <==>
      if i == |ops| then Ends(Run(EMPTY, ops), op, actor, identity) else EndsAt(ops, i, actor, identity)
  {
    hide Run, Reports, Ends;
    if 0 <= i <= |ops| { assert (ops + [op])[..i] == ops[..i]; }
    assert ops[..|ops|] == ops;
  }

  lemma Bounds(ops: seq<Op>, i: int, actor: ActorKey, identity: Identity)
    ensures ReportsAt(ops, i, actor, identity) || EndsAt(ops, i, actor, identity) ==> 0 <= i < |ops|
  {
  }

  lemma InForceStep(ops: seq<Op>, op: Op, actor: ActorKey, identity: Identity)
    ensures var t := Run(EMPTY, ops);
      InForce(ops + [op], actor, identity) <==>
        Reports(t, op, actor, identity) || (InForce(ops, actor, identity) && !Ends(t, op, actor, identity))
  {
    hide Run, Reports, Ends, ReportsAt, EndsAt;
    var t, n := Run(EMPTY, ops), |ops|;
    forall i
      ensures ReportsAt(ops + [op], i, actor, identity) <==>
        if i == n then Reports(t, op, actor, identity) else ReportsAt(ops, i, actor, identity)
      ensures EndsAt(ops + [op], i, actor, identity) <==>
        if i == n then Ends(t, op, actor, identity) else EndsAt(ops, i, actor, identity)
      ensures ReportsAt(ops, i, actor, identity) || EndsAt(ops, i, actor, identity) ==> 0 <= i < n
    {
      EarlierOps(ops, op, i, actor, identity);
      Bounds(ops, i, actor, identity);
    }
    if Reports(t, op, actor, identity) { assert ReportsAt(ops + [op], n, actor, identity); }
    if InForce(ops, actor, identity) && !Ends(t, op, actor, identity) {
      var i :| ReportsAt(ops, i, actor, identity) && forall j | j > i :: !EndsAt(ops, j, actor, identity);
      assert ReportsAt(ops + [op], i, actor, identity);
    }
    if InForce(ops + [op], actor, identity) && !Reports(t, op, actor, identity) {
      var i :| ReportsAt(ops + [op], i, actor, identity) && forall j | j > i :: !EndsAt(ops + [op], j, actor, identity);
      assert ReportsAt(ops, i, actor, identity);
      assert !EndsAt(ops + [op], n, actor, identity);
      assert forall j | j > i :: !EndsAt(ops, j, actor, identity);
    }
  }

  /** In every run the cache says an activation is shutting down exactly while a report of it is in force. */
  lemma {:induction false} ShutDownExactly(ops: seq<Op>, actor: ActorKey, identity: Identity)
    ensures ShutDown(Run(EMPTY, ops), actor, identity) <==> InForce(ops, actor, identity)
    decreases |ops|
  {
    if ops != [] {
      hide Run, InForce, ShutDown, Reports, Ends, Apply, WellTimed;
      var init, op := ops[..|ops| - 1], ops[|ops| - 1];
      assert ops == init + [op];
      ShutDownExactly(init, actor, identity);
      RunExtends(EMPTY, init, op);
      InForceStep(init, op, actor, identity);
      EmptyIsWellTimed();
      RunIsWellTimed(EMPTY, init);
      ShutdownBegins(Run(EMPTY, init), op, actor, identity);
    }
  }

  lemma EmptyIsWellTimed()
    ensures WellTimed(EMPTY)
  {
  }

  // ----- targets -----

  /** The owner holds its own lease, the lease has not run out, and it is a host of the deployment. */
  predicate Usable(p: Placement, configKey: string, nowMs: nat) {
    p.leaseId == p.identity.host && nowMs < p.expiresAtMs && HostMatchesConfig(p.identity.host, configKey)
  }

  /** After every run of the cache, a recorded owner is chosen exactly when it is usable and no report of
      its shutdown is in force, and the shutdown is answered exactly when it is usable and one is. */
  lemma TargetExactly(ops: seq<Op>, actor: ActorKey, current: Option<Placement>, configKey: string, nowMs: nat)
    ensures var answer := ActiveTarget(Run(EMPTY, ops), actor, current, configKey, nowMs);
      && (answer.Target? <==>
            && current.Some? && Usable(current.value, configKey, nowMs)
            && !InForce(ops, actor, current.value.identity))
      && (answer.ShuttingDown? <==>
            && current.Some? && Usable(current.value, configKey, nowMs)
            && InForce(ops, actor, current.value.identity))
  {
    hide Run, InForce, HostMatchesConfig;
    if current.Some? { ShutDownExactly(ops, actor, current.value.identity); }
  }
}
