/** LTX files: a transaction range and the page versions it leaves behind, the replay of a list
    of them onto a database, and their compaction into one full copy. */
module Ltx {
  import opened Wrappers

  type Page = seq<bv8>
  type Pages = map<nat, Page>

  /** File contents as far as the runtime looks at them: the header magic, the byte length and
      the page versions the file writes. */
  datatype LtxData = LtxData(magic: bool, length: u64, pages: Pages)

  datatype LtxFile = LtxFile(level: nat, first: u64, last: u64, data: LtxData) {
    predicate Valid() {
      && (level == 0 || level == 9)
      && 0 < first <= last
      && (level == 9 ==> first == 1)
      && data.magic
    }
  }

  /** Every file is valid and starts where its predecessor ended. */
  ghost predicate Chain(files: seq<LtxFile>) {
    && (forall i | 0 <= i < |files| :: files[i].Valid())
    && (forall i | 0 < i < |files| :: files[i].first == files[i - 1].last + 1)
  }

  /** A non-empty chain over exactly the transactions `first..last`. */
  ghost predicate Covers(files: seq<LtxFile>, first: nat, last: nat) {
    && files != []
    && Chain(files)
    && files[0].first == first
    && files[|files| - 1].last == last
  }

  function Replay(db: Pages, files: seq<LtxFile>): Pages
    decreases files
  {
    if files == [] then db else Replay(db + files[0].data.pages, files[1..])
  }

  function Bytes(files: seq<LtxFile>): nat {
    if files == [] then 0 else files[0].data.length + Bytes(files[1..])
  }

  lemma {:induction false} ReplayConcat(db: Pages, a: seq<LtxFile>, b: seq<LtxFile>)
    ensures Replay(db, a + b) == Replay(Replay(db, a), b)
    ensures Bytes(a + b) == Bytes(a) + Bytes(b)
    decreases a
  {
    if a == [] {
      assert a + b == b;
    } else {
      assert (a + b)[1..] == a[1..] + b;
      ReplayConcat(db + a[0].data.pages, a[1..], b);
    }
  }

  lemma ChainConcat(a: seq<LtxFile>, b: seq<LtxFile>, first: nat, middle: nat, last: nat)
    requires Covers(a, first, middle)
    requires Covers(b, middle + 1, last)
    ensures Covers(a + b, first, last)
  {
    var files := a + b;
    forall i | 0 < i < |files|
      ensures files[i].first == files[i - 1].last + 1
    {
      if i > |a| {
        assert files[i] == b[i - |a|] && files[i - 1] == b[i - |a| - 1];
      }
    }
  }

  lemma TailCovers(files: seq<LtxFile>, first: nat, last: nat)
    requires Covers(files, first, last) && |files| > 1
    ensures Covers(files[1..], files[0].last + 1, last)
  {
    var tail := files[1..];
    forall i | 0 <= i < |tail| ensures tail[i].Valid() { assert tail[i] == files[i + 1]; }
    forall i | 0 < i < |tail| ensures tail[i].first == tail[i - 1].last + 1 {
      assert tail[i] == files[i + 1] && tail[i - 1] == files[i];
    }
  }

  /** In a chain a full copy can only come first, and covering `first..last` bounds `first`. */
  lemma {:induction false} ChainOrder(files: seq<LtxFile>, i: nat)
    requires Chain(files) && i < |files|
    ensures files[0].first <= files[i].first <= files[i].last
    ensures i > 0 ==> files[i].level == 0 && files[0].last < files[i].first
  {
    if i > 0 {
      ChainOrder(files, i - 1);
    }
  }

  // ----- compaction -----

  /** The version of page `p` that the newest file writing it carries. */
  ghost function Newest(files: seq<LtxFile>, p: nat): (v: Option<Page>) {
    if files == [] then None
    else
      var last := files[|files| - 1].data.pages;
      if p in last then Some(last[p]) else Newest(files[..|files| - 1], p)
  }

  /** The k-way merge: for each page number, the version of the newest file that writes it. */
  function Merge(files: seq<LtxFile>): Pages {
    if files == [] then map[]
    else
      var newest := files[|files| - 1].data.pages;
      var older := Merge(files[..|files| - 1]);
      map p | p in older.Keys + newest.Keys :: if p in newest then newest[p] else older[p]
  }

  /** One level-9 file for a whole history; refuses an empty list and one not starting at 1. */
  function Compact(files: seq<LtxFile>, length: u64): (r: Result<LtxFile>)
  {
    if files == [] then Err("empty checkpoint")
    else if files[0].first != 1 then Err("compacted checkpoint transaction mismatch")
    else Ok(LtxFile(9, 1, files[|files| - 1].last, LtxData(true, length, Merge(files))))
  }

  lemma {:induction false} MergeIsNewest(files: seq<LtxFile>, p: nat)
    ensures p in Merge(files) <==> Newest(files, p).Some?
    ensures p in Merge(files) ==> Newest(files, p) == Some(Merge(files)[p])
  {
    if files != [] {
      MergeIsNewest(files[..|files| - 1], p);
    }
  }

  lemma {:induction false} ReplayIsMerge(files: seq<LtxFile>)
    ensures Replay(map[], files) == Merge(files)
  {
    if files != [] {
      var init, last := files[..|files| - 1], files[|files| - 1];
      assert files == init + [last];
      ReplayIsMerge(init);
      ReplayConcat(map[], init, [last]);
      assert Replay(Merge(init), [last]) == Merge(init) + last.data.pages;
      assert Merge(init) + last.data.pages == Merge(files);
    }
  }

  /** Compacting a whole history keeps its meaning: replaying the single full copy gives the
      database that replaying the history gives, over the same transactions. */
  lemma CompactPreserves(files: seq<LtxFile>, last: nat, length: u64)
    requires Covers(files, 1, last)
    ensures Compact(files, length).Ok?
    ensures Covers([Compact(files, length).value], 1, last)
    ensures Replay(map[], [Compact(files, length).value]) == Replay(map[], files)
  {
    ReplayIsMerge(files);
    ChainOrder(files, |files| - 1);
    var file := Compact(files, length).value;
    assert Replay(map[], [file]) == map[] + Merge(files);
  }
}
