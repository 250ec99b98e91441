/** Where an actor's records live: printing its identity into keys and paths, and reading it back. */
module Paths {
  import opened Actors
  import opened Wrappers
  import opened Text
  import Base64

  const ROOT: string := "durable-actors/v3/"
  const KEY_PREFIX: string := "object.v4."

  // ----- valid identities -----

  predicate ValidChar(c: char) {
    'a' <= c <= 'z' || 'A' <= c <= 'Z' || '0' <= c <= '9' || c == '-' || c == '_' || c == '.'
  }

  predicate ValidComponent(s: string, max: nat) {
    s != "" && |s| <= max && forall i | 0 <= i < |s| :: ValidChar(s[i])
  }

  predicate Control(c: char) {
    c as int < 32 || 127 <= c as int < 160
  }

  predicate ValidStorageKey(s: string) {
    && s != "" && |s| <= 255 && s != "." && s != ".."
    && forall i | 0 <= i < |s| :: s[i] != '/' && s[i] != '\\' && !Control(s[i])
  }

  function StorageKey(a: ActorKey): string {
    KEY_PREFIX + a.project + ":" + a.name + ":" + a.id
  }

  predicate ValidComponents(a: ActorKey) {
    ValidComponent(a.project, 64) && ValidComponent(a.name, 48) && ValidComponent(a.id, 128)
  }

  predicate Valid(a: ActorKey) {
    ValidComponents(a) && ValidStorageKey(StorageKey(a))
  }

  /** Valid components already make a valid storage key, with three bytes to spare. */
  lemma StorageKeyFits(a: ActorKey)
    ensures ValidComponents(a) ==> |StorageKey(a)| <= 252
    ensures Valid(a) <==> ValidComponents(a)
  {
    if ValidComponents(a) {
      var s := StorageKey(a);
      assert forall i | 0 <= i < |s| :: ValidChar(s[i]) || s[i] == ':';
      assert s[0] == 'o';
    }
  }

  // ----- storage keys -----

  function StripPrefix(s: string, prefix: string): Option<string> {
    if prefix <= s then Some(s[|prefix|..]) else None
  }

  function ActorFromKey(key: string): Result<ActorKey> {
    var rest := StripPrefix(key, KEY_PREFIX);
    if rest.None? then Err("invalid actor key")
    else
      var parts := Split(rest.value, ':');
      if |parts| != 3 then Err("invalid actor identity")
      else
        var actor := ActorKey(parts[0], parts[1], parts[2]);
        if Valid(actor) then Ok(actor) else Err("invalid actor")
  }

  lemma JoinThree(a: string, b: string, c: string, sep: char)
    ensures Join([a, b, c], sep) == a + [sep] + b + [sep] + c
  {
    assert [a, b, c][..2] == [a, b] && [a, b][..1] == [a];
    assert Join([a, b], sep) == a + [sep] + b;
  }

  lemma ValidHasNo(s: string, max: nat, c: char)
    requires ValidComponent(s, max) && !ValidChar(c)
    ensures c !in s
  {
  }

  lemma StorageKeyReads(a: ActorKey)
    requires Valid(a)
    ensures ActorFromKey(StorageKey(a)) == Ok(a)
  {
    var parts := [a.project, a.name, a.id];
    ValidHasNo(a.project, 64, ':');
    ValidHasNo(a.name, 48, ':');
    ValidHasNo(a.id, 128, ':');
    hide Valid, Split, Join;
    SplitInvertsJoin(parts, ':');
    JoinThree(a.project, a.name, a.id, ':');
    assert StorageKey(a) == KEY_PREFIX + Join(parts, ':');
    assert StripPrefix(StorageKey(a), KEY_PREFIX) == Some(Join(parts, ':'));
  }

  lemma ReadKeyIsStorageKey(key: string)
    requires ActorFromKey(key).Ok?
    ensures Valid(ActorFromKey(key).value) && StorageKey(ActorFromKey(key).value) == key
  {
    hide Valid, Split, Join;
    var rest := StripPrefix(key, KEY_PREFIX).value;
    var parts := Split(rest, ':');
    JoinInvertsSplit(rest, ':');
    JoinThree(parts[0], parts[1], parts[2], ':');
    assert parts == [parts[0], parts[1], parts[2]];
    assert key == KEY_PREFIX + rest;
  }

  /** Printing a valid identity and reading it back gives the identity, and only what a valid identity
      prints to can be read. */
  lemma ActorFromKeyInvertsStorageKey(a: ActorKey, key: string)
    ensures Valid(a) ==> ActorFromKey(StorageKey(a)) == Ok(a)
    ensures ActorFromKey(key).Ok? ==> Valid(ActorFromKey(key).value) && StorageKey(ActorFromKey(key).value) == key
  {
    hide Valid, ActorFromKey, StorageKey;
    if Valid(a) { StorageKeyReads(a); }
    if ActorFromKey(key).Ok? { ReadKeyIsStorageKey(key); }
  }

  // ----- path components -----

  predicate Ascii(s: string) {
    forall i | 0 <= i < |s| :: s[i] as int < 128
  }

  function Bytes(s: string): (b: seq<Base64.byte>)
    requires Ascii(s)
    ensures |b| == |s| && forall i | 0 <= i < |s| :: b[i] == s[i] as int
  {
    seq(|s|, i requires 0 <= i < |s| => s[i] as int)
  }

  function Component(s: string): string
    requires Ascii(s)
  {
    Base64.Encode(Bytes(s))
  }

  /** Text that is not ASCII is refused here; identities made of it would be refused next. */
  function DecodeComponent(s: string): Option<string> {
    var b := Base64.Decode(s);
    if b.None? || exists i | 0 <= i < |b.value| :: b.value[i] >= 128 then None
    else Some(seq(|b.value|, i requires 0 <= i < |b.value| => b.value[i] as char))
  }

  lemma ComponentRoundTrip(s: string)
    requires Ascii(s)
    ensures DecodeComponent(Component(s)) == Some(s)
    ensures forall i | 0 <= i < |Component(s)| :: Base64.ValueOf(Component(s)[i]).Some?
  {
    Base64.DecodeInvertsEncode(Bytes(s), "");
    Base64.EncodeUsesAlphabet(Bytes(s));
    assert DecodeComponent(Component(s)).value == s;
  }

  lemma ValidIsAscii(a: ActorKey)
    requires Valid(a)
    ensures Ascii(a.project) && Ascii(a.name) && Ascii(a.id)
  {
  }

  /** The pieces of an actor's path: a shard taken from the hash of its key, then its components. */
  function PathParts(a: ActorKey, hash: string -> Base64.byte): (parts: seq<string>)
    requires Valid(a)
    ensures |parts| == 4
  {
    ValidIsAscii(a);
    [Hex(hash(StorageKey(a)), 2), Component(a.project), Component(a.name), Component(a.id)]
  }

  function ActorPath(a: ActorKey, hash: string -> Base64.byte): string
    requires Valid(a)
  {
    Join(PathParts(a, hash), '/')
  }

  lemma ComponentIsClean(s: string)
    requires Ascii(s)
    ensures '/' !in Component(s) && '.' !in Component(s)
  {
    ComponentRoundTrip(s);
    assert Base64.ValueOf('/').None? && Base64.ValueOf('.').None?;
  }

  lemma PlainIsClean(s: string)
    requires Plain(s)
    ensures '/' !in s && '.' !in s
  {
    assert DigitValue('/', 16).None? && DigitValue('.', 16).None?;
  }

  lemma PartsAreClean(a: ActorKey, hash: string -> Base64.byte)
    requires Valid(a)
    ensures forall p | p in PathParts(a, hash) :: '/' !in p && '.' !in p
  {
    ValidIsAscii(a);
    assert Power16(2) == 256;
    HexParses(hash(StorageKey(a)), 2);
    hide Valid, Ascii, Component, Hex, Plain, Power16;
    ComponentIsClean(a.project);
    ComponentIsClean(a.name);
    ComponentIsClean(a.id);
    PlainIsClean(Hex(hash(StorageKey(a)), 2));
  }

  /** Different actors differ in some component of their paths. */
  lemma PartsIdentify(a: ActorKey, b: ActorKey, hash: string -> Base64.byte)
    requires Valid(a) && Valid(b) && PathParts(a, hash)[1..] == PathParts(b, hash)[1..]
    ensures a == b
  {
    hide Valid, Ascii, Component, DecodeComponent, Hex;
    ValidIsAscii(a);
    ValidIsAscii(b);
    var p, q := PathParts(a, hash), PathParts(b, hash);
    assert p[1] == p[1..][0] == q[1] && p[2] == p[1..][1] == q[2] && p[3] == p[1..][2] == q[3];
    ComponentRoundTrip(a.project);
    ComponentRoundTrip(b.project);
    ComponentRoundTrip(a.name);
    ComponentRoundTrip(b.name);
    ComponentRoundTrip(a.id);
    ComponentRoundTrip(b.id);
  }

  // ----- paths -----

  function Snapshots(a: ActorKey, hash: string -> Base64.byte): Result<string> {
    if !Valid(a) then Err("invalid actor") else Ok(ROOT + "snapshots/" + ActorPath(a, hash) + "/")
  }

  function Owner(key: string, hash: string -> Base64.byte): Result<string> {
    var actor :- ActorFromKey(key);
    ActorFromKeyInvertsStorageKey(actor, key);
    Ok(ROOT + "owners/" + ActorPath(actor, hash) + ".json")
  }

  predicate ValidNonce(nonce: string) {
    |nonce| == 32 && Plain(nonce)
  }

  function SnapshotObjectName(
    a: ActorKey, version: nat, nonce: string, hash: string -> Base64.byte): Result<string>
  {
    if !Valid(a) then Err("invalid actor")
    else if version == 0 then Err("actor state version must be positive")
    else if !ValidNonce(nonce) then Err("actor state object nonce is invalid")
    else Ok(Snapshots(a, hash).value + nonce + "/" + Decimal(version) + ".json")
  }

  function ActorFromSnapshot(name: string, hash: string -> Base64.byte): Result<ActorKey> {
    var rest := StripPrefix(name, ROOT);
    if rest.None? then Err("invalid snapshot root")
    else
      var parts := Split(rest.value, '/');
      if |parts| != 7 || parts[0] != "snapshots" then Err("invalid snapshot path")
      else
        var project, actorName, id := DecodeComponent(parts[2]), DecodeComponent(parts[3]), DecodeComponent(parts[4]);
        if project.None? || actorName.None? || id.None? then Err("invalid component")
        else
          var actor := ActorKey(project.value, actorName.value, id.value);
          if !Valid(actor) then Err("invalid actor")
          else if !(Snapshots(actor, hash).value <= name) then Err("snapshot shard mismatch")
          else Ok(actor)
  }

  /** The owner epoch and the state version a snapshot's name spells. */
  function SnapshotPosition(name: string): Option<(u64, u64)> {
    var parts := Split(name, '/');
    var file := parts[|parts| - 1];
    if |parts| < 2 || |file| < 5 || file[|file| - 5..] != ".json" then None
    else
      var version, epoch := ParseU64(file[..|file| - 5], 10), ParseU64(parts[|parts| - 2], 16);
      if version.None? || epoch.None? then None else Some((epoch.value, version.value))
  }

  /** The whole name, piece by piece. */
  function NameParts(a: ActorKey, version: nat, nonce: string, hash: string -> Base64.byte): seq<string>
    requires Valid(a)
  {
    ["snapshots"] + PathParts(a, hash) + [nonce, Decimal(version) + ".json"]
  }

  lemma JoinSplitsOff(first: string, rest: seq<string>, sep: char)
    requires rest != []
    ensures Join([first] + rest, sep) == first + [sep] + Join(rest, sep)
    decreases |rest|
  {
    var all := [first] + rest;
    if |rest| == 1 {
      assert all == [first, rest[0]] && all[..1] == [first];
    } else {
      var init := rest[..|rest| - 1];
      assert all[..|all| - 1] == [first] + init;
      JoinSplitsOff(first, init, sep);
    }
  }

  lemma JoinAppends(init: seq<string>, last: string, sep: char)
    requires init != []
    ensures Join(init + [last], sep) == Join(init, sep) + [sep] + last
  {
    assert (init + [last])[..|init|] == init;
  }

  lemma JoinedName(parts: seq<string>, nonce: string, file: string)
    requires parts != []
    ensures Join(["snapshots"] + parts + [nonce, file], '/') == "snapshots/" + Join(parts, '/') + "/" + nonce + "/" + file
  {
    hide Join;
    var head := ["snapshots"] + parts;
    JoinSplitsOff("snapshots", parts, '/');
    JoinAppends(head, nonce, '/');
    JoinAppends(head + [nonce], file, '/');
    assert head + [nonce, file] == head + [nonce] + [file];
    assert "snapshots" + ['/'] == "snapshots/";
  }

  lemma Regrouped(path: string, nonce: string, digits: string)
    ensures ROOT + "snapshots/" + path + "/" + nonce + "/" + digits + ".json"
         == ROOT + ("snapshots/" + path + "/" + nonce + "/" + (digits + ".json"))
  {
  }

  lemma NameIsJoined(a: ActorKey, version: nat, nonce: string, hash: string -> Base64.byte)
    requires Valid(a) && version > 0 && ValidNonce(nonce)
    ensures SnapshotObjectName(a, version, nonce, hash) == Ok(ROOT + Join(NameParts(a, version, nonce, hash), '/'))
  {
    hide Join, Valid, ValidNonce, Decimal, PathParts;
    JoinedName(PathParts(a, hash), nonce, Decimal(version) + ".json");
    Regrouped(ActorPath(a, hash), nonce, Decimal(version));
  }

  lemma NamePartsAreClean(a: ActorKey, version: nat, nonce: string, hash: string -> Base64.byte)
    requires Valid(a) && ValidNonce(nonce)
    ensures forall p | p in NameParts(a, version, nonce, hash) :: '/' !in p
  {
    PartsAreClean(a, hash);
    DecimalParses(version);
    PlainIsClean(Decimal(version));
    PlainIsClean(nonce);
  }

  lemma NamePartsDecode(a: ActorKey, version: nat, nonce: string, hash: string -> Base64.byte)
    requires Valid(a)
    ensures var parts := NameParts(a, version, nonce, hash);
      && |parts| == 7 && parts[0] == "snapshots" && DecodeComponent(parts[2]) == Some(a.project)
      && DecodeComponent(parts[3]) == Some(a.name) && DecodeComponent(parts[4]) == Some(a.id)
  {
    hide Valid, Ascii, Component, DecodeComponent, Hex, Decimal;
    ValidIsAscii(a);
    ComponentRoundTrip(a.project);
    ComponentRoundTrip(a.name);
    ComponentRoundTrip(a.id);
  }

  /** A snapshot's name gives its actor back. */
  lemma ActorFromSnapshotInverts(a: ActorKey, version: nat, nonce: string, hash: string -> Base64.byte)
    requires Valid(a) && version > 0 && ValidNonce(nonce)
    ensures ActorFromSnapshot(SnapshotObjectName(a, version, nonce, hash).value, hash) == Ok(a)
  {
    hide Split, Join, Valid, ValidNonce, Decimal, DecodeComponent, NameParts, ActorPath;
    var parts := NameParts(a, version, nonce, hash);
    var name := SnapshotObjectName(a, version, nonce, hash).value;
    assert Snapshots(a, hash).value <= name;
    NameIsJoined(a, version, nonce, hash);
    NamePartsAreClean(a, version, nonce, hash);
    NamePartsDecode(a, version, nonce, hash);
    SplitInvertsJoin(parts, '/');
    assert StripPrefix(name, ROOT) == Some(Join(parts, '/'));
  }

  lemma PositionOf(stem: string, nonce: string, digits: string)
    requires '/' !in nonce && '/' !in digits
    ensures var version, epoch := ParseU64(digits, 10), ParseU64(nonce, 16);
      SnapshotPosition(stem + ['/'] + nonce + ['/'] + (digits + ".json"))
        == if version.None? || epoch.None? then None else Some((epoch.value, version.value))
  {
    hide Split, ParseU64;
    var file := digits + ".json";
    var name := stem + ['/'] + nonce + ['/'] + file;
    SplitPlain(nonce, '/');
    SplitPlain(file, '/');
    SplitAtSeparator(stem, nonce, '/');
    SplitAtSeparator(stem + ['/'] + nonce, file, '/');
    assert Split(name, '/') == Split(stem, '/') + [nonce] + [file];
    assert file[..|file| - 5] == digits && file[|file| - 5..] == ".json";
  }

  /** And so does it give its epoch and version, when the nonce spells the epoch as the writers do. */
  lemma SnapshotPositionInverts(a: ActorKey, epoch: u64, version: u64, hash: string -> Base64.byte)
    requires Valid(a) && version > 0
    ensures SnapshotObjectName(a, version, Hex(epoch, 32), hash).Ok?
    ensures SnapshotPosition(SnapshotObjectName(a, version, Hex(epoch, 32), hash).value) == Some((epoch, version))
  {
    PrintedNumbersParse(epoch);
    PrintedNumbersParse(version);
    PlainIsClean(Hex(epoch, 32));
    PlainIsClean(Decimal(version));
    hide Valid, Decimal, Hex, Plain, ActorPath, ParseU64, SnapshotPosition;
    var stem := ROOT + "snapshots/" + ActorPath(a, hash);
    PositionOf(stem, Hex(epoch, 32), Decimal(version));
    assert SnapshotObjectName(a, version, Hex(epoch, 32), hash).value
        == stem + ['/'] + Hex(epoch, 32) + ['/'] + (Decimal(version) + ".json");
  }

  // ----- no actor's path begins another's -----

  /** A text that ends in a separator begins only texts that share all its pieces. */
  lemma PiecesOfPrefix(p: seq<string>, q: seq<string>, sep: char)
    requires p != [] && |p| == |q| && (forall x | x in p + q :: sep !in x)
    requires Join(p, sep) + [sep] <= Join(q, sep) + [sep]
    ensures p == q
  {
    var a, b := Join(p, sep), Join(q, sep);
    var rest := (b + [sep])[|a| + 1..];
    assert b + [sep] == a + [sep] + rest;
    assert forall x | x in p :: x in p + q;
    assert forall x | x in q :: x in p + q;
    SplitInvertsJoin(p, sep);
    SplitInvertsJoin(q, sep);
    SplitAtSeparator(a, rest, sep);
    SplitAtSeparator(b, "", sep);
    assert b + [sep] + "" == b + [sep];
    SplitEmpty(sep);
    var all := Split(b + [sep], sep);
    assert all == q + [""] && all == p + Split(rest, sep);
    assert p == all[..|p|] == q;
  }

  /** No actor's snapshot prefix begins another's. */
  lemma SnapshotPrefixesAreFree(a: ActorKey, b: ActorKey, hash: string -> Base64.byte)
    requires Valid(a) && Valid(b) && Snapshots(a, hash).value <= Snapshots(b, hash).value
    ensures a == b
  {
    PartsAreClean(a, hash);
    PartsAreClean(b, hash);
    var p, q := PathParts(a, hash), PathParts(b, hash);
    hide Join, Valid, PathParts;
    var head := ROOT + "snapshots/";
    assert Snapshots(a, hash).value == head + (Join(p, '/') + "/");
    assert Snapshots(b, hash).value == head + (Join(q, '/') + "/");
    assert Snapshots(b, hash).value[|head|..] == Join(q, '/') + "/";
    assert Snapshots(a, hash).value[|head|..] == Join(p, '/') + "/";
    PiecesOfPrefix(p, q, '/');
    PartsIdentify(a, b, hash);
  }

  lemma FirstDot(x: string, y: string)
    requires '.' !in x && '.' !in y && x + ".json" <= y + ".json"
    ensures x == y
  {
    var u, v := x + ".json", y + ".json";
    assert u[|x|] == '.' && v[|y|] == '.';
    assert forall i | 0 <= i < |x| :: u[i] != '.';
    assert forall i | 0 <= i < |y| :: v[i] != '.';
    assert |x| == |y|;
    assert x == u[..|x|] && y == v[..|x|];
  }

  lemma JoinSuffix(parts: seq<string>, suffix: string, sep: char)
    requires parts != []
    ensures var n := |parts| - 1;
      Join(parts, sep) + suffix == Join(parts[..n] + [parts[n] + suffix], sep)
  {
    var n := |parts| - 1;
    var longer := parts[..n] + [parts[n] + suffix];
    assert longer[..n] == parts[..n];
  }

  /** The pieces of a path that ends in a file name. */
  function Filed(p: seq<string>): seq<string>
    requires |p| == 4
  {
    p[..3] + [p[3] + ".json"]
  }

  lemma FiledSplits(p: seq<string>)
    requires |p| == 4 && forall x | x in p :: '/' !in x
    ensures Split(Join(p, '/') + ".json", '/') == Filed(p)
  {
    hide Join, Split;
    JoinSuffix(p, ".json", '/');
    assert forall x | x in Filed(p) :: '/' !in x;
    SplitInvertsJoin(Filed(p), '/');
  }

  lemma LastPieceOfPrefix(p: seq<string>, q: seq<string>)
    requires |p| == |q| == 4 && forall x | x in p + q :: '/' !in x && '.' !in x
    requires Join(p, '/') + ".json" <= Join(q, '/') + ".json"
    ensures p == q
  {
    hide Join, Split;
    var a, b := Join(p, '/') + ".json", Join(q, '/') + ".json";
    assert forall x | x in p :: x in p + q;
    assert forall x | x in q :: x in p + q;
    FiledSplits(p);
    FiledSplits(q);
    SplitPrefix(a, b, '/');
    FiledAlike(p, q);
  }

  lemma FiledAlike(p: seq<string>, q: seq<string>)
    requires |p| == |q| == 4 && '.' !in p[3] && '.' !in q[3]
    requires Filed(q)[..3] == Filed(p)[..3] && Filed(p)[3] <= Filed(q)[3]
    ensures p == q
  {
    FirstDot(p[3], q[3]);
    assert p[..3] == Filed(p)[..3] && q[..3] == Filed(q)[..3];
    assert p == p[..3] + [p[3]] && q == q[..3] + [q[3]];
  }

  /** No actor's owner record has a path that begins another's. */
  lemma OwnerPathsAreFree(a: ActorKey, b: ActorKey, hash: string -> Base64.byte)
    requires Valid(a) && Valid(b)
    ensures Owner(StorageKey(a), hash).Ok? && Owner(StorageKey(b), hash).Ok?
    ensures Owner(StorageKey(a), hash).value <= Owner(StorageKey(b), hash).value ==> a == b
  {
    ActorFromKeyInvertsStorageKey(a, "");
    ActorFromKeyInvertsStorageKey(b, "");
    hide Join, Valid, PathParts, StorageKey, ActorFromKey;
    var p, q := PathParts(a, hash), PathParts(b, hash);
    var head := ROOT + "owners/";
    var x, y := Owner(StorageKey(a), hash).value, Owner(StorageKey(b), hash).value;
    assert x == head + (Join(p, '/') + ".json") && y == head + (Join(q, '/') + ".json");
    if x <= y {
      assert x[|head|..] == Join(p, '/') + ".json" && y[|head|..] == Join(q, '/') + ".json";
      PartsAreClean(a, hash);
      PartsAreClean(b, hash);
      LastPieceOfPrefix(p, q);
      PartsIdentify(a, b, hash);
    }
  }
}
