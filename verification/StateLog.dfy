/** Committed actor state: one SQLite commit, the reference a later commit keeps to it, and the
    checks every encode and decode repeats. */
module StateLog {
  import opened Wrappers
  import opened Ltx

  datatype SnapshotRef = SnapshotRef(name: string, stateVersion: u64, requestId: string, digest: string)

  datatype SqliteSnapshot = SqliteSnapshot(txid: u64, parent: Option<SnapshotRef>, files: seq<LtxFile>) {

    /** What a commit at `stateVersion` must look like. The successor of every transaction the
        files name has to be a counter value, so none of them may be the largest one. */
    ghost predicate WellFormed(stateVersion: u64) {
      && files != []
      && Covers(files, files[0].first, txid)
      && (files[0].first == 1 <==> parent.None?)
      && (parent.Some? ==> parent.value.stateVersion < stateVersion)
      && txid < U64_MAX
    }
  }

  /** How many bytes a character takes in UTF-8. */
  function Utf8Bytes(c: char): nat {
    var code := c as int;
    if code < 0x80 then 1 else if code < 0x800 then 2 else if code < 0x1_0000 then 3 else 4
  }

  /** How many code points, from 0 on, a sequence of `n` bytes can carry. */
  function Utf8Capacity(n: nat): nat {
    match n
    case 1 => 0x80
    case 2 => 0x20 * 0x40
    case 3 => 0x10 * 0x40 * 0x40
    case _ => 0x08 * 0x40 * 0x40 * 0x40
  }

  /** A character takes the shortest sequence that can carry it (section 3 of RFC 3629). */
  lemma Utf8IsShortest(c: char)
    ensures 1 <= Utf8Bytes(c) <= 4 && c as int < Utf8Capacity(Utf8Bytes(c))
    ensures Utf8Bytes(c) > 1 ==> c as int >= Utf8Capacity(Utf8Bytes(c) - 1)
  {
  }

  function Utf8Length(s: string): nat {
    if s == "" then 0 else Utf8Length(s[..|s| - 1]) + Utf8Bytes(s[|s| - 1])
  }

  predicate ValidRequestId(requestId: string) {
    0 < Utf8Length(requestId) <= 255
  }

  datatype StateSnapshot = StateSnapshot(
    stateVersion: u64, ownerEpoch: u64, requestId: string, sqlite: SqliteSnapshot)
  {
    ghost predicate WellFormed() {
      && stateVersion > 0
      && ownerEpoch > 0
      && ValidRequestId(requestId)
      && sqlite.WellFormed(stateVersion)
    }
  }

  /** The loop over a commit's files, stated by what it accepts. */
  method ValidateSqlite(s: SqliteSnapshot, stateVersion: u64) returns (r: Result<()>)
    ensures r.Ok? <==> s.WellFormed(stateVersion)
  {
    if s.txid == 0 { return Err("SQLite transaction must be positive"); }
    if s.files == [] { return Err("SQLite commit has no replication files"); }
    var first := s.files[0].first;
    if (first == 1) != s.parent.None? { return Err("SQLite dependency mismatch"); }
    if s.parent.Some? && s.parent.value.stateVersion >= stateVersion {
      return Err("SQLite dependency must precede its commit");
    }
    var next := first;
    for i := 0 to |s.files|
      invariant next <= U64_MAX
      invariant Chain(s.files[..i])
      invariant next == if i == 0 then first else s.files[i - 1].last + 1
    {
      var file := s.files[i];
      if !file.Valid() {
        assert s.files[i] == file;
        return Err("invalid LTX file");
      }
      if file.first != next { return Err("SQLite transaction gap"); }
      if file.last == U64_MAX {
        if s.WellFormed(stateVersion) { ChainUpper(s.files, i); }
        return Err("SQLite transaction overflow");
      }
      next := file.last + 1;
    }
    assert s.files[..|s.files|] == s.files;
    if next - 1 != s.txid { return Err("SQLite transaction mismatch"); }
    return Ok(());
  }

  lemma {:induction false} ChainUpper(files: seq<LtxFile>, i: nat)
    requires Chain(files) && i < |files|
    ensures files[i].last <= files[|files| - 1].last
    decreases |files| - i
  {
    if i + 1 < |files| { ChainUpper(files, i + 1); }
  }

  method Validate(s: StateSnapshot) returns (r: Result<()>)
    ensures r.Ok? <==> s.WellFormed()
  {
    if s.stateVersion == 0 { return Err("actor state version must be positive"); }
    if s.ownerEpoch == 0 { return Err("owner epoch must be positive"); }
    if s.requestId == "" || Utf8Length(s.requestId) > 255 { return Err("actor state request ID is invalid"); }
    r := ValidateSqlite(s.sqlite, s.stateVersion);
  }
}
