/** Capture: turning a directory of level-0 deltas and level-9 full copies into the gap-free
    list of files that one commit carries. */
module Capture {
  import opened Wrappers
  import opened Sorting
  import opened Ltx

  /** A replica file whose name parsed as a transaction range. */
  datatype Entry = Entry(first: u64, last: u64, data: LtxData)

  /** The two replica directories in the order they are listed, which is arbitrary. */
  datatype Replica = Replica(deltas: seq<Entry>, copies: seq<Entry>)

  /** File names only parse as a range when it is non-empty and positive. */
  predicate Named(replica: Replica) {
    && (forall e | e in replica.deltas :: 0 < e.first <= e.last)
    && (forall e | e in replica.copies :: 0 < e.first <= e.last)
  }

  function ByRange(e: Entry): Key {
    Key(e.first, e.last)
  }

  /** The entries that end inside `(after, through]`, in directory order. */
  function Fresh(entries: seq<Entry>, after: nat, through: nat): (r: seq<Entry>) {
    if entries == [] then []
    else
      var rest := Fresh(entries[1..], after, through);
      if after < entries[0].last <= through then [entries[0]] + rest else rest
  }

  lemma {:induction false} FreshMembers(entries: seq<Entry>, after: nat, through: nat)
    ensures forall e :: e in Fresh(entries, after, through) <==> e in entries && after < e.last <= through
  {
    if entries != [] {
      FreshMembers(entries[1..], after, through);
      assert entries == [entries[0]] + entries[1..];
    }
  }

  function Load(level: nat, e: Entry): LtxFile {
    LtxFile(level, e.first, e.last, e.data)
  }

  function LoadAll(level: nat, entries: seq<Entry>): (r: seq<LtxFile>)
    ensures |r| == |entries|
    ensures forall i | 0 <= i < |r| :: r[i] == Load(level, entries[i])
  {
    seq(|entries|, i requires 0 <= i < |entries| => Load(level, entries[i]))
  }

  /** What one directory contributes: fresh entries by range, and of full copies only the last. */
  function Listing(entries: seq<Entry>, level: nat, after: nat, through: nat): (r: seq<LtxFile>) {
    var sorted := Sort(Fresh(entries, after, through), ByRange);
    var kept := if level == 9 && |sorted| > 1 then sorted[|sorted| - 1..] else sorted;
    LoadAll(level, kept)
  }

  method ReadLtxFiles(entries: seq<Entry>, level: nat, after: nat, through: nat)
    returns (r: seq<LtxFile>)
    ensures r == Listing(entries, level, after, through)
  {
    var files := [];
    assert entries[0..] == entries;
    for i := 0 to |entries|
      invariant files + Fresh(entries[i..], after, through) == Fresh(entries, after, through)
    {
      var e := entries[i];
      assert entries[i..][1..] == entries[i + 1..];
      if e.last > through || e.last <= after { continue; }
      files := files + [e];
    }
    assert entries[|entries|..] == [] && files == Fresh(entries, after, through);
    files := Sort(files, ByRange);
    if level == 9 && |files| > 1 { files := files[|files| - 1..]; }
    r := LoadAll(level, files);
  }

  /** The deltas that continue a list ending before `next`: earlier ones are skipped, and any
      other must start exactly at `next`. The result ends with the transaction to come. */
  function Continue(deltas: seq<LtxFile>, next: nat): (r: Result<(seq<LtxFile>, nat)>) {
    if deltas == [] then Ok(([], next))
    else if deltas[0].last < next then Continue(deltas[1..], next)
    else if deltas[0].first != next then Err("Litestream capture has a transaction gap")
    else if deltas[0].last == U64_MAX then Err("Litestream transaction overflow")
    else
      var rest :- Continue(deltas[1..], deltas[0].last + 1);
      Ok(([deltas[0]] + rest.0, rest.1))
  }

  /** A commit's list from what the two directories contribute. */
  function Assemble(copies: seq<LtxFile>, deltas: seq<LtxFile>, after: nat, through: nat)
    : (r: Result<seq<LtxFile>>)
  {
    var next := if copies == [] then after + 1 else copies[0].last + 1;
    var rest :- Continue(deltas, next);
    if through == U64_MAX then Err("Litestream transaction overflow")
    else if rest.1 != through + 1 then Err("Litestream has not replicated the actor commit")
    else Ok(copies + rest.0)
  }

  function Collected(replica: Replica, after: nat, through: nat): (r: Result<seq<LtxFile>>) {
    Assemble(
      Listing(replica.copies, 9, after, through), Listing(replica.deltas, 0, after, through),
      after, through)
  }

  function Joined(taken: seq<LtxFile>, rest: Result<(seq<LtxFile>, nat)>): Result<(seq<LtxFile>, nat)> {
    match rest
    case Ok(rest) => Ok((taken + rest.0, rest.1))
    case Err(e) => Err(e)
  }

  /** The loop over the deltas, with the list growing behind the full copy. */
  method AssembleFiles(copies: seq<LtxFile>, deltas: seq<LtxFile>, after: u64, through: u64)
    returns (r: Result<seq<LtxFile>>)
    ensures r == Assemble(copies, deltas, after, through)
  {
    // An `after` or a full copy at the largest counter value leaves nothing to continue with, and
    // the final overflow check refuses it.
    var next: nat := if copies == [] then after + 1 else copies[0].last + 1;
    ghost var start := next;
    var taken: seq<LtxFile> := [];
    assert deltas[0..] == deltas && forall s: seq<LtxFile> :: taken + s == s;
    for i := 0 to |deltas|
      invariant Continue(deltas, start) == Joined(taken, Continue(deltas[i..], next))
    {
      var file := deltas[i];
      assert deltas[i..][1..] == deltas[i + 1..];
      if file.last < next { continue; }
      if file.first != next { return Err("Litestream capture has a transaction gap"); }
      if file.last == U64_MAX { return Err("Litestream transaction overflow"); }
      assert forall s: seq<LtxFile> :: taken + ([file] + s) == (taken + [file]) + s;
      next := file.last + 1;
      taken := taken + [file];
    }
    assert deltas[|deltas|..] == [] && taken + [] == taken;
    if through == U64_MAX { return Err("Litestream transaction overflow"); }
    if next != through + 1 { return Err("Litestream has not replicated the actor commit"); }
    return Ok(copies + taken);
  }

  method CollectLtxFiles(replica: Replica, after: u64, through: u64) returns (r: Result<seq<LtxFile>>)
    ensures r == Collected(replica, after, through)
  {
    var copies := ReadLtxFiles(replica.copies, 9, after, through);
    var deltas := ReadLtxFiles(replica.deltas, 0, after, through);
    r := AssembleFiles(copies, deltas, after, through);
  }

  // ----- what a successful collection is -----

  ghost predicate Readable(replica: Replica) {
    && (forall e | e in replica.deltas :: e.data.magic)
    && (forall e | e in replica.copies :: e.data.magic && e.first == 1)
  }

  lemma {:induction false} ListingMembers(entries: seq<Entry>, level: nat, after: nat, through: nat)
    ensures forall f | f in Listing(entries, level, after, through) ::
      exists e :: e in entries && after < e.last <= through && f == Load(level, e)
    ensures level == 9 ==> |Listing(entries, level, after, through)| <= 1
  {
    var unsorted := Fresh(entries, after, through);
    FreshMembers(entries, after, through);
    SortSorts(unsorted, ByRange);
    hide Fresh, Sort, Sorted;
    var sorted := Sort(unsorted, ByRange);
    var kept := if level == 9 && |sorted| > 1 then sorted[|sorted| - 1..] else sorted;
    forall f | f in LoadAll(level, kept)
      ensures exists e :: e in entries && after < e.last <= through && f == Load(level, e)
    {
      var i :| 0 <= i < |kept| && f == LoadAll(level, kept)[i];
      assert kept[i] in sorted;
      assert kept[i] in unsorted;
    }
  }

  /** Of the full copies only the newest counts: none that qualifies has a later range. */
  lemma ListingKeepsNewest(entries: seq<Entry>, after: nat, through: nat)
    ensures var r := Listing(entries, 9, after, through);
      && (r == [] <==> forall e | e in entries :: !(after < e.last <= through))
      && (r != [] ==>
            exists newest :: newest in entries && r == [Load(9, newest)]
              && forall e | e in entries && after < e.last <= through :: Leq(ByRange(e), ByRange(newest)))
  {
    var unsorted := Fresh(entries, after, through);
    FreshMembers(entries, after, through);
    SortSorts(unsorted, ByRange);
    hide Fresh, Sort;
    var sorted := Sort(unsorted, ByRange);
    if unsorted != [] {
      var newest := sorted[|sorted| - 1];
      assert newest in sorted && newest in unsorted;
      forall e | e in entries && after < e.last <= through ensures Leq(ByRange(e), ByRange(newest)) {
        assert e in unsorted && e in sorted;
        var i :| 0 <= i < |sorted| && sorted[i] == e;
        LeqReflexive(ByRange(e));
      }
      assert Listing(entries, 9, after, through) == [Load(9, newest)];
    }
  }

  lemma LeqReflexive(k: Key)
    ensures Leq(k, k)
  {
  }

  lemma {:induction false} ContinueChains(deltas: seq<LtxFile>, next: nat)
    requires forall f | f in deltas :: f.Valid()
    ensures var r := Continue(deltas, next);
      r.Ok? ==>
        && (forall f | f in r.value.0 :: f in deltas)
        && if r.value.0 == [] then r.value.1 == next
           else r.value.1 > next && Covers(r.value.0, next, r.value.1 - 1)
  {
    if deltas == [] || Continue(deltas, next).Err? {
    } else if deltas[0].last < next {
      ContinueChains(deltas[1..], next);
    } else {
      var rest := Continue(deltas[1..], deltas[0].last + 1).value;
      ContinueChains(deltas[1..], deltas[0].last + 1);
      if rest.0 != [] {
        ChainConcat([deltas[0]], rest.0, next, deltas[0].last, rest.1 - 1);
      }
    }
  }

  lemma CopyCovers(replica: Replica, after: nat, through: nat)
    requires Named(replica) && Readable(replica)
    ensures CopyShape(Listing(replica.copies, 9, after, through), after, through)
  {
    var copies := Listing(replica.copies, 9, after, through);
    ListingMembers(replica.copies, 9, after, through);
    if copies != [] {
      assert copies[0] in copies;
      assert copies[0].Valid() && |copies| == 1;
    }
  }

  lemma DeltasValid(replica: Replica, after: nat, through: nat)
    requires Named(replica) && Readable(replica)
    ensures forall f | f in Listing(replica.deltas, 0, after, through) :: f.Valid()
  {
    ListingMembers(replica.deltas, 0, after, through);
  }

  lemma AssembleMembers(copies: seq<LtxFile>, deltas: seq<LtxFile>, after: nat, through: nat)
    requires forall f | f in deltas :: f.Valid()
    ensures var r := Assemble(copies, deltas, after, through);
      r.Ok? ==> forall f | f in r.value :: f in copies || f in deltas
  {
    ContinueChains(deltas, if copies == [] then after + 1 else copies[0].last + 1);
  }

  ghost predicate CopyShape(copies: seq<LtxFile>, after: nat, through: nat) {
    copies != [] ==> after < copies[0].last <= through && Covers(copies, 1, copies[0].last)
  }

  lemma AssembleCovers(copies: seq<LtxFile>, deltas: seq<LtxFile>, after: nat, through: u64)
    requires CopyShape(copies, after, through)
    requires forall f | f in deltas :: f.Valid()
    ensures var r := Assemble(copies, deltas, after, through);
      r.Ok? ==>
        && through < U64_MAX
        && (r.value == [] ==> through == after)
        && (r.value != [] ==>
              && after < through
              && (Covers(r.value, after + 1, through) || Covers(r.value, 1, through)))
  {
    var next := if copies == [] then after + 1 else copies[0].last + 1;
    ContinueChains(deltas, next);
    var r := Assemble(copies, deltas, after, through);
    if r.Ok? {
      var rest := Continue(deltas, next).value;
      if copies == [] {
        assert r.value == rest.0;
      } else if rest.0 == [] {
        assert r.value == copies;
      } else {
        ChainConcat(copies, rest.0, 1, copies[0].last, through);
      }
    }
  }

  /** A collected list that is not empty covers a gap-free range ending at `through`. It starts
      right after `after`, or it is a complete history that starts at transaction 1. */
  lemma CollectedCovers(replica: Replica, after: u64, through: u64)
    requires Named(replica) && Readable(replica)
    ensures var r := Collected(replica, after, through);
      r.Ok? ==>
        && through < U64_MAX
        && (r.value == [] ==> through == after)
        && (r.value != [] ==>
              && after < through
              && (Covers(r.value, after + 1, through) || Covers(r.value, 1, through)))
  {
    CopyCovers(replica, after, through);
    DeltasValid(replica, after, through);
    AssembleCovers(
      Listing(replica.copies, 9, after, through), Listing(replica.deltas, 0, after, through),
      after, through);
  }

  lemma AssembleSucceeds(copies: seq<LtxFile>, deltas: seq<LtxFile>, after: nat, through: nat)
    requires CopyShape(copies, after, through)
    requires Covers(deltas, after + 1, through) && through < U64_MAX
    requires copies != [] ==> forall f | f in deltas :: !(f.first <= copies[0].last < f.last)
    ensures Assemble(copies, deltas, after, through).Ok?
    ensures Assemble(copies, deltas, after, through).value != []
  {
    var next := if copies == [] then after + 1 else copies[0].last + 1;
    forall f | f in deltas ensures after + 1 <= f.first <= f.last {
      var i :| 0 <= i < |deltas| && deltas[i] == f;
      ChainOrder(deltas, i);
    }
    ChainOrder(deltas, |deltas| - 1);
    ContinueReaches(deltas, next, after, through);
  }

  /** Collection reaches `through` whenever the sorted deltas are themselves gap-free from
      `after + 1` to `through` and no full copy ends in the middle of one of them. */
  lemma CollectedSucceeds(replica: Replica, after: u64, through: u64)
    requires Named(replica) && Readable(replica) && through < U64_MAX
    requires var deltas := Listing(replica.deltas, 0, after, through);
      && Covers(deltas, after + 1, through)
      && forall e, f | e in replica.copies && f in deltas :: !(f.first <= e.last < f.last)
    ensures Collected(replica, after, through).Ok?
    ensures Collected(replica, after, through).value != []
  {
    var copies := Listing(replica.copies, 9, after, through);
    CopyCovers(replica, after, through);
    ListingMembers(replica.copies, 9, after, through);
    if copies != [] { assert copies[0] in copies; }
    AssembleSucceeds(copies, Listing(replica.deltas, 0, after, through), after, through);
  }

  lemma {:induction false} ContinueReaches(deltas: seq<LtxFile>, next: nat, after: nat, through: nat)
    requires Covers(deltas, after + 1, through) && through < U64_MAX
    requires after < next <= through + 1
    requires forall f | f in deltas :: !(f.first < next <= f.last)
    ensures Continue(deltas, next).Ok?
    ensures Continue(deltas, next).value.1 == through + 1
    ensures next <= through ==> Continue(deltas, next).value.0 != []
  {
    var head, tail := deltas[0], deltas[1..];
    assert head in deltas && head.Valid();
    if tail == [] {
      assert Continue(tail, through + 1) == Ok(([], through + 1));
    } else {
      TailCovers(deltas, after + 1, through);
      TailBegins(tail, head.last, through);
      hide Covers;
      if head.last < next {
        ContinueReaches(tail, next, head.last, through);
      } else {
        ContinueReaches(tail, head.last + 1, head.last, through);
      }
    }
  }

  lemma TailBegins(tail: seq<LtxFile>, after: nat, through: nat)
    requires Covers(tail, after + 1, through)
    ensures forall f | f in tail :: f.first > after
    ensures after < through
  {
    forall f | f in tail ensures f.first > after {
      var i :| 0 <= i < |tail| && tail[i] == f;
      ChainOrder(tail, i);
    }
    ChainOrder(tail, |tail| - 1);
  }

  // ----- the live capture -----

  /** Cleanup removes spent files, those ending at or before `through`, one after another. It may
      fail at any point; `budget` is how many it removes before that. */
  function Pruned(entries: seq<Entry>, through: nat, budget: nat): seq<Entry>
    decreases entries
  {
    if entries == [] then []
    else if entries[0].last <= through && budget > 0 then Pruned(entries[1..], through, budget - 1)
    else [entries[0]] + Pruned(entries[1..], through, budget)
  }

  method PruneLevel(entries: seq<Entry>, through: nat, budget: nat) returns (r: seq<Entry>)
    ensures r == Pruned(entries, through, budget)
  {
    r := [];
    var left := budget;
    assert entries[0..] == entries;
    for i := 0 to |entries|
      invariant r + Pruned(entries[i..], through, left) == Pruned(entries, through, budget)
    {
      assert entries[i..][1..] == entries[i + 1..];
      if entries[i].last <= through && left > 0 {
        left := left - 1;
      } else {
        r := r + [entries[i]];
      }
    }
  }

  lemma {:induction false} FreshPruned(entries: seq<Entry>, spent: nat, budget: nat, after: nat, through: nat)
    requires spent <= after
    ensures Fresh(Pruned(entries, spent, budget), after, through) == Fresh(entries, after, through)
    decreases entries
  {
    if entries != [] {
      if entries[0].last <= spent && budget > 0 {
        FreshPruned(entries[1..], spent, budget - 1, after, through);
      } else {
        FreshPruned(entries[1..], spent, budget, after, through);
        var kept := Pruned(entries, spent, budget);
        assert kept[1..] == Pruned(entries[1..], spent, budget);
      }
    }
  }

  /** However far cleanup gets, it never changes what a later capture collects. */
  lemma PruneInvisible(replica: Replica, spent: nat, deltas: nat, copies: nat, after: nat, through: nat)
    requires spent <= after
    ensures Collected(
        Replica(Pruned(replica.deltas, spent, deltas), Pruned(replica.copies, spent, copies)), after, through)
      == Collected(replica, after, through)
  {
    FreshPruned(replica.deltas, spent, deltas, after, through);
    FreshPruned(replica.copies, spent, copies, after, through);
  }

  class SqliteCapture {
    var txid: u64
    var published: u64
    var replica: Replica

    constructor (position: u64, replica: Replica)
      ensures txid == published == position && this.replica == replica
    {
      txid, published := position, position;
      this.replica := replica;
    }

    /** `deltas` and `copies` say how many spent files of each level the cleanup gets to remove. */
    method Capture(through: u64, deltas: nat, copies: nat) returns (r: Result<seq<LtxFile>>)
      modifies this
      ensures r == if through < old(txid) then Err("SQLite transaction went backwards")
                   else Collected(old(replica), old(published), through)
      ensures r.Ok? ==> txid == published == through
      ensures r.Ok? ==> replica == Replica(
                Pruned(old(replica).deltas, through, deltas), Pruned(old(replica).copies, through, copies))
      ensures r.Err? ==> unchanged(this)
    {
      if through < txid { return Err("SQLite transaction went backwards"); }
      r := CollectLtxFiles(replica, published, through);
      if r.Err? { return; }
      var keptDeltas := PruneLevel(replica.deltas, through, deltas);
      var keptCopies := PruneLevel(replica.copies, through, copies);
      replica := Replica(keptDeltas, keptCopies);
      txid := through;
      published := through;
    }
  }
}
