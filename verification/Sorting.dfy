/** The stable sort by a two-part key that the runtime uses for replica listings
    (first, last transaction), lifecycle reports (epoch, sequence) and due alarms. */
module Sorting {

  datatype Key = Key(major: int, minor: int)

  predicate Leq(a: Key, b: Key) {
    a.major < b.major || (a.major == b.major && a.minor <= b.minor)
  }

  ghost predicate Sorted<T>(s: seq<T>, key: T -> Key) {
    forall i, j | 0 <= i < j < |s| :: Leq(key(s[i]), key(s[j]))
  }

  /** Places `x` behind every element whose key does not exceed its own. */
  function Insert<T>(s: seq<T>, x: T, key: T -> Key): (r: seq<T>)
    ensures |r| == |s| + 1
  {
    if s == [] || Leq(key(s[|s| - 1]), key(x)) then s + [x]
    else Insert(s[..|s| - 1], x, key) + [s[|s| - 1]]
  }

  function Sort<T>(s: seq<T>, key: T -> Key): (r: seq<T>)
    ensures |r| == |s|
  {
    if s == [] then [] else Insert(Sort(s[..|s| - 1], key), s[|s| - 1], key)
  }

  /** The elements of `s` that carry key `k`, in their order. */
  function WithKey<T>(s: seq<T>, key: T -> Key, k: Key): (r: seq<T>) {
    if s == [] then []
    else WithKey(s[..|s| - 1], key, k) + (if key(s[|s| - 1]) == k then [s[|s| - 1]] else [])
  }

  lemma {:induction false} InsertMembers<T>(s: seq<T>, x: T, key: T -> Key)
    ensures multiset(Insert(s, x, key)) == multiset(s) + multiset{x}
    ensures forall y | y in Insert(s, x, key) :: y in s || y == x
  {
    if s != [] && !Leq(key(s[|s| - 1]), key(x)) {
      var init, last := s[..|s| - 1], s[|s| - 1];
      assert s == init + [last];
      InsertMembers(init, x, key);
    }
  }

  lemma SortedAppend<T>(s: seq<T>, last: T, key: T -> Key)
    requires Sorted(s, key) && forall y | y in s :: Leq(key(y), key(last))
    ensures Sorted(s + [last], key)
  {
    assert forall i | 0 <= i < |s| :: s[i] in s;
  }

  lemma SortedBelowLast<T>(s: seq<T>, key: T -> Key)
    requires Sorted(s, key) && s != []
    ensures Sorted(s[..|s| - 1], key)
    ensures forall y | y in s :: Leq(key(y), key(s[|s| - 1]))
  {
    forall y | y in s ensures Leq(key(y), key(s[|s| - 1])) {
      var j :| 0 <= j < |s| && s[j] == y;
    }
  }

  lemma {:induction false} InsertSorted<T>(s: seq<T>, x: T, key: T -> Key)
    requires Sorted(s, key)
    ensures Sorted(Insert(s, x, key), key)
  {
    if s != [] {
      var init, last := s[..|s| - 1], s[|s| - 1];
      assert s == init + [last];
      SortedBelowLast(s, key);
      hide Sorted;
      if Leq(key(last), key(x)) {
        SortedAppend(s, x, key);
      } else {
        InsertSorted(init, x, key);
        InsertMembers(init, x, key);
        SortedAppend(Insert(init, x, key), last, key);
      }
    }
  }

  /** The result is ordered and holds exactly the input's elements. */
  lemma {:induction false} SortSorts<T>(s: seq<T>, key: T -> Key)
    ensures Sorted(Sort(s, key), key)
    ensures multiset(Sort(s, key)) == multiset(s)
    ensures forall y :: y in Sort(s, key) <==> y in s
  {
    assert forall y :: y in s <==> y in multiset(s);
    if s != [] {
      var init, last := s[..|s| - 1], s[|s| - 1];
      assert s == init + [last];
      SortSorts(init, key);
      InsertSorted(Sort(init, key), last, key);
      InsertMembers(Sort(init, key), last, key);
    }
  }

  lemma {:induction false} InsertStable<T>(s: seq<T>, x: T, key: T -> Key, k: Key)
    ensures WithKey(Insert(s, x, key), key, k)
         == WithKey(s, key, k) + (if key(x) == k then [x] else [])
  {
    if s == [] || Leq(key(s[|s| - 1]), key(x)) {
      assert (s + [x])[..|s|] == s;
    } else {
      var init, last := s[..|s| - 1], s[|s| - 1];
      InsertStable(init, x, key, k);
      assert (Insert(init, x, key) + [last])[..|s|] == Insert(init, x, key);
    }
  }

  /** Elements with equal keys keep their relative order. */
  lemma {:induction false} SortStable<T>(s: seq<T>, key: T -> Key, k: Key)
    ensures WithKey(Sort(s, key), key, k) == WithKey(s, key, k)
  {
    if s != [] {
      SortStable(s[..|s| - 1], key, k);
      InsertStable(Sort(s[..|s| - 1], key), s[|s| - 1], key, k);
    }
  }

}
