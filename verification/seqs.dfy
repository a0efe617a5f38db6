/**
 * The array methods the components chain together — `filter`, `map`, `reduce` into a
 * sum, `new Set(...)` de-duplication and `sort` with a numeric comparator — as pure
 * functions over sequences, with the facts the models need about them.
 */
module Seqs {

  /** `a` can be obtained from `b` by deleting elements: order is kept. */
  predicate IsSubsequence<T(==)>(a: seq<T>, b: seq<T>)
    decreases |b|
  {
    if |a| == 0 then true
    else if |b| == 0 then false
    else if a[0] == b[0] then IsSubsequence(a[1..], b[1..])
    else IsSubsequence(a, b[1..])
  }

  /** `s.filter(p)`: the elements satisfying `p`, in their original order. */
  function Filter<T(==)>(s: seq<T>, p: T -> bool): (r: seq<T>)
    ensures |r| <= |s|
    ensures forall i :: 0 <= i < |r| ==> r[i] in s && p(r[i])
    ensures forall i :: 0 <= i < |s| && p(s[i]) ==> s[i] in r
  {
    if |s| == 0 then []
    else if p(s[0]) then [s[0]] + Filter(s[1..], p)
    else Filter(s[1..], p)
  }

  /** What `filter` keeps stays in its original relative order. */
  lemma {:induction false} FilterIsSubsequence<T>(s: seq<T>, p: T -> bool)
    ensures IsSubsequence(Filter(s, p), s)
  {
    if |s| > 0 {
      FilterIsSubsequence(s[1..], p);
      var rest := Filter(s[1..], p);
      if !p(s[0]) && |rest| > 0 {
        assert p(rest[0]);
        assert rest[0] != s[0];
      }
    }
  }

  /** Filtering distributes over concatenation. */
  lemma {:induction false} FilterAppend<T>(a: seq<T>, b: seq<T>, p: T -> bool)
    ensures Filter(a + b, p) == Filter(a, p) + Filter(b, p)
  {
    if |a| == 0 {
      assert a + b == b;
    } else {
      var ab := a + b;
      assert ab[0] == a[0];
      assert ab[1..] == a[1..] + b;
      FilterAppend(a[1..], b, p);
      var head: seq<T> := if p(a[0]) then [a[0]] else [];
      assert Filter(ab, p) == head + Filter(ab[1..], p);
      assert Filter(a, p) == head + Filter(a[1..], p);
    }
  }

  /** An element is kept by `filter` exactly when it occurs and satisfies `p`. */
  lemma FilterMembers<T>(s: seq<T>, p: T -> bool)
    ensures forall x :: x in Filter(s, p) <==> x in s && p(x)
  {
    forall x | x in s && p(x) ensures x in Filter(s, p) {
      var i :| 0 <= i < |s| && s[i] == x;
    }
  }

  /** Two sequences with the same multiset have the same elements. */
  lemma SameMembers<T>(a: seq<T>, b: seq<T>)
    requires multiset(a) == multiset(b)
    ensures forall x :: x in a <==> x in b
  {
    forall x ensures x in a <==> x in b {
      assert x in a <==> x in multiset(a);
      assert x in b <==> x in multiset(b);
    }
  }

  /** The number of elements satisfying `p`: `s.filter(p).length`. */
  function Count<T(==)>(s: seq<T>, p: T -> bool): (n: nat)
    ensures n <= |s|
  {
    |Filter(s, p)|
  }

  /** The positions of `s` whose element satisfies `p`. */
  function Indices<T>(s: seq<T>, p: T -> bool): set<int> {
    set i | 0 <= i < |s| && p(s[i])
  }

  /** `filter` keeps one element per satisfying position. */
  lemma {:induction false} CountIndices<T>(s: seq<T>, p: T -> bool)
    ensures |Filter(s, p)| == |Indices(s, p)|
    decreases |s|
  {
    if |s| > 0 {
      var init, last := s[..|s| - 1], s[|s| - 1];
      CountIndices(init, p);
      assert s == init + [last];
      FilterAppend(init, [last], p);
      assert [last][1..] == [];
      IndicesSnoc(init, last, p);
    }
  }

  /** One more element adds its position exactly when it satisfies `p`. */
  lemma IndicesSnoc<T>(init: seq<T>, last: T, p: T -> bool)
    ensures |Indices(init + [last], p)| == |Indices(init, p)| + (if p(last) then 1 else 0)
  {
    var s := init + [last];
    var before := Indices(init, p);
    assert |init| !in before;
    var after: set<int> := if p(last) then before + {|init|} else before;
    assert Indices(s, p) == after by {
      forall i ensures i in Indices(s, p) <==> i in after {
        if 0 <= i < |init| {
          assert s[i] == init[i];
        }
      }
    }
  }

  /** `s.map(f)`. */
  function Map<T, U>(s: seq<T>, f: T -> U): (r: seq<U>)
    ensures |r| == |s|
    ensures forall i :: 0 <= i < |s| ==> r[i] == f(s[i])
  {
    if |s| == 0 then [] else [f(s[0])] + Map(s[1..], f)
  }

  /** The elements of a mapped sequence are exactly the images of the elements. */
  lemma MapMembers<T, U>(s: seq<T>, f: T -> U)
    ensures forall y :: y in s ==> f(y) in Map(s, f)
    ensures forall x :: x in Map(s, f) ==> exists y :: y in s && f(y) == x
  {
    var r := Map(s, f);
    forall y | y in s ensures f(y) in r {
      var i :| 0 <= i < |s| && s[i] == y;
      assert r[i] == f(y);
    }
    forall x | x in r ensures exists y :: y in s && f(y) == x {
      var i :| 0 <= i < |r| && r[i] == x;
      assert s[i] in s && f(s[i]) == x;
    }
  }

  /** `s.reduce((acc, x) => acc + f(x), 0)`. */
  function SumBy<T>(s: seq<T>, f: T -> int): int {
    if |s| == 0 then 0 else f(s[0]) + SumBy(s[1..], f)
  }

  lemma {:induction false} SumByAppend<T>(a: seq<T>, b: seq<T>, f: T -> int)
    ensures SumBy(a + b, f) == SumBy(a, f) + SumBy(b, f)
  {
    if |a| == 0 {
      assert a + b == b;
    } else {
      SumByAppend(a[1..], b, f);
      assert (a + b)[0] == a[0];
      assert (a + b)[1..] == a[1..] + b;
    }
  }

  /** No element occurs twice. */
  predicate NoDuplicates<T(==)>(s: seq<T>) {
    forall i, j :: 0 <= i < j < |s| ==> s[i] != s[j]
  }

  lemma {:induction false} SubsequenceOfItself<T>(s: seq<T>)
    ensures IsSubsequence(s, s)
  {
    if |s| > 0 {
      SubsequenceOfItself(s[1..]);
    }
  }

  /** Appending to the longer sequence keeps a subsequence. */
  lemma {:induction false} SubsequenceExtend<T>(a: seq<T>, b: seq<T>, x: T)
    requires IsSubsequence(a, b)
    ensures IsSubsequence(a, b + [x])
    ensures IsSubsequence(a + [x], b + [x])
    decreases |b|
  {
    if |a| == 0 {
      assert a + [x] == [x];
      SubsequenceSingleton(b, x);
    } else {
      assert (b + [x])[1..] == b[1..] + [x];
      assert (a + [x])[1..] == a[1..] + [x];
      if a[0] == b[0] {
        SubsequenceExtend(a[1..], b[1..], x);
      } else {
        SubsequenceExtend(a, b[1..], x);
      }
    }
  }

  lemma {:induction false} SubsequenceSingleton<T>(b: seq<T>, x: T)
    ensures IsSubsequence([x], b + [x])
    decreases |b|
  {
    if |b| > 0 {
      assert (b + [x])[1..] == b[1..] + [x];
      SubsequenceSingleton(b[1..], x);
    }
  }

  /**
   * `r` lists elements in the order they first occur in `s`: wherever a later element
   * of `r` occurs in `s`, every earlier element of `r` has already occurred.
   */
  predicate FirstOccurrenceOrder<T(==)>(r: seq<T>, s: seq<T>) {
    forall i, j, k :: 0 <= i < j < |r| && 0 <= k < |s| && s[k] == r[j] ==> r[i] in s[..k]
  }

  /**
   * `Array.from(new Set(s))`: each distinct element once, in the order of its first
   * occurrence.
   */
  function Dedup<T(==)>(s: seq<T>): (r: seq<T>)
    ensures NoDuplicates(r)
    ensures forall i :: 0 <= i < |r| ==> r[i] in s
    ensures forall i :: 0 <= i < |s| ==> s[i] in r
    ensures IsSubsequence(r, s)
    ensures FirstOccurrenceOrder(r, s)
  {
    if |s| == 0 then []
    else
      var init := s[..|s| - 1];
      var rest := Dedup(init);
      assert s == init + [s[|s| - 1]];
      SubsequenceExtend(rest, init, s[|s| - 1]);
      assert forall i :: 0 <= i < |s| - 1 ==> s[i] == init[i];
      var r := if s[|s| - 1] in rest then rest else rest + [s[|s| - 1]];
      DedupOrderStep(init, s[|s| - 1], rest, r);
      r
  }

  /** Adding one element at the end of `s` keeps the first-occurrence order of its de-duplication. */
  lemma DedupOrderStep<T>(init: seq<T>, x: T, rest: seq<T>, r: seq<T>)
    requires FirstOccurrenceOrder(rest, init)
    requires forall i :: 0 <= i < |rest| ==> rest[i] in init
    requires forall i :: 0 <= i < |init| ==> init[i] in rest
    requires r == if x in rest then rest else rest + [x]
    ensures FirstOccurrenceOrder(r, init + [x])
  {
    var s := init + [x];
    forall i, j, k | 0 <= i < j < |r| && 0 <= k < |s| && s[k] == r[j]
      ensures r[i] in s[..k]
    {
      assert r[i] in rest;
      if k == |init| {
        assert s[..k] == init;
      } else {
        assert s[k] == init[k] && s[..k] == init[..k];
      }
    }
  }

  /** De-duplication keeps every element and adds none. */
  lemma DedupMembers<T>(s: seq<T>)
    ensures forall x :: x in Dedup(s) <==> x in s
  {
    var r := Dedup(s);
    forall x ensures x in r <==> x in s {
      if x in s {
        var i :| 0 <= i < |s| && s[i] == x;
      }
      if x in r {
        var i :| 0 <= i < |r| && r[i] == x;
      }
    }
  }

  /** Non-increasing by `key`: the order `sort((a, b) => key(b) - key(a))` produces. */
  predicate SortedDesc<T>(s: seq<T>, key: T -> int) {
    forall i, j :: 0 <= i < j < |s| ==> key(s[i]) >= key(s[j])
  }

  /** Puts `x` in front of the first element whose key does not exceed its own. */
  function Insert<T>(x: T, s: seq<T>, key: T -> int): (r: seq<T>)
    ensures |r| == |s| + 1
    ensures multiset(r) == multiset(s) + multiset{x}
  {
    if |s| == 0 then [x]
    else if key(x) >= key(s[0]) then [x] + s
    else
      HeadAndTail(s);
      [s[0]] + Insert(x, s[1..], key)
  }

  /** Inserting into a sorted sequence keeps it sorted. */
  lemma {:induction false} InsertSorted<T>(x: T, s: seq<T>, key: T -> int)
    requires SortedDesc(s, key)
    ensures SortedDesc(Insert(x, s, key), key)
  {
    if |s| > 0 && key(x) < key(s[0]) {
      var rest := Insert(x, s[1..], key);
      InsertSorted(x, s[1..], key);
      assert Insert(x, s, key) == [s[0]] + rest;
      forall y | y in rest ensures key(s[0]) >= key(y) {
        assert y in multiset(rest);
        if y != x {
          assert y in multiset(s[1..]);
          var k :| 0 <= k < |s[1..]| && s[1..][k] == y;
          assert s[k + 1] == y;
        }
      }
      SortedCons(s[0], rest, key);
    }
  }

  /** A head whose key bounds every key of a sorted tail keeps the sequence sorted. */
  lemma SortedCons<T>(h: T, t: seq<T>, key: T -> int)
    requires SortedDesc(t, key)
    requires forall y :: y in t ==> key(h) >= key(y)
    ensures SortedDesc([h] + t, key)
  {
    var r := [h] + t;
    forall i, j | 0 <= i < j < |r| ensures key(r[i]) >= key(r[j]) {
      assert r[j] == t[j - 1];
      if i > 0 {
        assert r[i] == t[i - 1];
      }
    }
  }

  /** A non-empty sequence holds its head and the elements of its tail. */
  lemma HeadAndTail<T>(s: seq<T>)
    requires |s| > 0
    ensures multiset(s) == multiset{s[0]} + multiset(s[1..])
  {
    assert s == [s[0]] + s[1..];
  }

  /**
   * A stable sort into non-increasing key order — what `Array.prototype.sort`
   * (stable since ES2019) does with the comparator `(a, b) => key(b) - key(a)`.
   */
  function SortDesc<T>(s: seq<T>, key: T -> int): (r: seq<T>)
    ensures |r| == |s|
    ensures multiset(r) == multiset(s)
    ensures SortedDesc(r, key)
  {
    if |s| == 0 then []
    else
      var rest := SortDesc(s[1..], key);
      InsertSorted(s[0], rest, key);
      HeadAndTail(s);
      Insert(s[0], rest, key)
  }

  /**
   * Filtering after an insertion is inserting after filtering: the stable sort
   * never reorders two elements the filter keeps.
   */
  lemma {:induction false} FilterInsert<T>(x: T, s: seq<T>, key: T -> int, p: T -> bool)
    requires SortedDesc(s, key)
    ensures Filter(Insert(x, s, key), p)
         == if p(x) then Insert(x, Filter(s, p), key) else Filter(s, p)
  {
    if |s| == 0 {
    } else if key(x) >= key(s[0]) {
      FilterInsertFront(x, s, key, p);
    } else {
      FilterInsert(x, s[1..], key, p);
      FilterInsertBehind(x, s, key, p);
    }
  }

  /** An element going in front of a sorted sequence also goes in front of any filtering of it. */
  lemma FilterInsertFront<T>(x: T, s: seq<T>, key: T -> int, p: T -> bool)
    requires SortedDesc(s, key) && |s| > 0 && key(x) >= key(s[0])
    ensures Filter(Insert(x, s, key), p)
         == if p(x) then Insert(x, Filter(s, p), key) else Filter(s, p)
  {
    var fs := Filter(s, p);
    InsertInFront(x, s, key);
    FilterCons(x, s, p);
    if p(x) {
      if |fs| > 0 {
        SortedHeadFirst(s, key, fs[0]);
      }
      InsertInFront(x, fs, key);
    }
  }

  /** Filtering a sequence with a given head. */
  lemma FilterCons<T>(x: T, s: seq<T>, p: T -> bool)
    ensures Filter([x] + s, p) == if p(x) then [x] + Filter(s, p) else Filter(s, p)
  {
    assert ([x] + s)[1..] == s;
  }

  /** An element with a key at least the head's is inserted in front. */
  lemma InsertInFront<T>(x: T, s: seq<T>, key: T -> int)
    requires |s| == 0 || key(x) >= key(s[0])
    ensures Insert(x, s, key) == [x] + s
  {
  }

  /** The head of a sorted sequence has the greatest key. */
  lemma SortedHeadFirst<T>(s: seq<T>, key: T -> int, y: T)
    requires SortedDesc(s, key) && y in s
    ensures key(s[0]) >= key(y)
  {
    var k :| 0 <= k < |s| && s[k] == y;
    assert key(s[0]) >= key(s[k]);
  }

  /** An element going past the head: the head is kept or dropped in front of the rest. */
  lemma FilterInsertBehind<T>(x: T, s: seq<T>, key: T -> int, p: T -> bool)
    requires |s| > 0 && key(x) < key(s[0])
    requires Filter(Insert(x, s[1..], key), p)
         == if p(x) then Insert(x, Filter(s[1..], p), key) else Filter(s[1..], p)
    ensures Filter(Insert(x, s, key), p)
         == if p(x) then Insert(x, Filter(s, p), key) else Filter(s, p)
  {
    var rest := Insert(x, s[1..], key);
    var fs := Filter(s[1..], p);
    assert s == [s[0]] + s[1..];
    InsertBehind(x, s[0], s[1..], key);
    FilterCons(s[0], rest, p);
    FilterCons(s[0], s[1..], p);
    if p(s[0]) && p(x) {
      InsertBehind(x, s[0], fs, key);
    }
  }

  /** An element with a key below the head's is inserted into the tail. */
  lemma InsertBehind<T>(x: T, y: T, s: seq<T>, key: T -> int)
    requires key(x) < key(y)
    ensures Insert(x, [y] + s, key) == [y] + Insert(x, s, key)
  {
    assert ([y] + s)[1..] == s;
  }

  /** Sorting commutes with filtering. */
  lemma {:induction false} SortFilter<T>(s: seq<T>, key: T -> int, p: T -> bool)
    ensures SortDesc(Filter(s, p), key) == Filter(SortDesc(s, key), p)
  {
    if |s| > 0 {
      SortFilter(s[1..], key, p);
      FilterInsert(s[0], SortDesc(s[1..], key), key, p);
      if p(s[0]) {
        var fs := Filter(s[1..], p);
        assert Filter(s, p) == [s[0]] + fs;
        assert ([s[0]] + fs)[1..] == fs;
      }
    }
  }

  /** Mapping with a key-preserving function commutes with insertion. */
  lemma {:induction false} InsertMap<T>(x: T, s: seq<T>, key: T -> int, f: T -> T)
    requires forall y :: key(f(y)) == key(y)
    ensures Insert(f(x), Map(s, f), key) == Map(Insert(x, s, key), f)
  {
    if |s| > 0 && key(x) < key(s[0]) {
      InsertMap(x, s[1..], key, f);
      var rest := Insert(x, s[1..], key);
      assert ([s[0]] + rest)[1..] == rest;
      assert Map(s, f)[1..] == Map(s[1..], f);
    } else if |s| > 0 {
      assert ([x] + s)[1..] == s;
    }
  }

  /** Sorting commutes with a map that does not change keys. */
  lemma {:induction false} SortMap<T>(s: seq<T>, key: T -> int, f: T -> T)
    requires forall y :: key(f(y)) == key(y)
    ensures SortDesc(Map(s, f), key) == Map(SortDesc(s, key), f)
  {
    if |s| > 0 {
      SortMap(s[1..], key, f);
      InsertMap(s[0], SortDesc(s[1..], key), key, f);
      assert Map(s, f)[1..] == Map(s[1..], f);
    }
  }

  /** Filtering commutes with a map that does not change what the filter tests. */
  lemma {:induction false} FilterMap<T>(s: seq<T>, p: T -> bool, f: T -> T)
    requires forall y :: p(f(y)) == p(y)
    ensures Filter(Map(s, f), p) == Map(Filter(s, p), f)
  {
    if |s| > 0 {
      FilterMap(s[1..], p, f);
      assert Map(s, f)[1..] == Map(s[1..], f);
      if p(s[0]) {
        var fs := Filter(s[1..], p);
        assert Map([s[0]] + fs, f)[1..] == Map(fs, f);
      }
    }
  }

  /** Filtering twice is filtering once by the conjunction. */
  lemma {:induction false} FilterFilter<T>(s: seq<T>, p: T -> bool, q: T -> bool, both: T -> bool)
    requires forall y :: both(y) == (p(y) && q(y))
    ensures Filter(Filter(s, p), q) == Filter(s, both)
  {
    if |s| > 0 {
      FilterFilter(s[1..], p, q, both);
      if p(s[0]) {
        var fs := Filter(s[1..], p);
        assert ([s[0]] + fs)[1..] == fs;
      }
    }
  }

  /** Two filters commute. */
  lemma FilterCommute<T>(s: seq<T>, p: T -> bool, q: T -> bool)
    ensures Filter(Filter(s, p), q) == Filter(Filter(s, q), p)
  {
    var both := (y: T) => p(y) && q(y);
    FilterFilter(s, p, q, both);
    FilterFilter(s, q, p, both);
  }

  /** An element whose key exceeds every other key sorts to the front. */
  lemma {:induction false} SortNewest<T>(s: seq<T>, x: T, key: T -> int)
    requires forall i :: 0 <= i < |s| ==> key(s[i]) < key(x)
    ensures SortDesc(s + [x], key) == [x] + SortDesc(s, key)
  {
    if |s| == 0 {
      assert s + [x] == [x];
    } else {
      assert (s + [x])[0] == s[0];
      assert (s + [x])[1..] == s[1..] + [x];
      SortNewest(s[1..], x, key);
      var rest := SortDesc(s[1..], key);
      assert ([x] + rest)[0] == x && ([x] + rest)[1..] == rest;
    }
  }

  lemma {:induction false} SumByInsert<T>(x: T, s: seq<T>, key: T -> int, f: T -> int)
    ensures SumBy(Insert(x, s, key), f) == f(x) + SumBy(s, f)
  {
    if |s| > 0 && key(x) < key(s[0]) {
      SumByInsert(x, s[1..], key, f);
      var rest := Insert(x, s[1..], key);
      assert ([s[0]] + rest)[1..] == rest;
    } else if |s| > 0 {
      assert ([x] + s)[1..] == s;
    }
  }

  /** Sorting does not change a sum. */
  lemma {:induction false} SumBySort<T>(s: seq<T>, key: T -> int, f: T -> int)
    ensures SumBy(SortDesc(s, key), f) == SumBy(s, f)
  {
    if |s| > 0 {
      SumBySort(s[1..], key, f);
      SumByInsert(s[0], SortDesc(s[1..], key), key, f);
    }
  }

  lemma {:induction false} NoDuplicatesOnce<T>(a: seq<T>, x: T)
    requires NoDuplicates(a)
    ensures multiset(a)[x] <= 1
  {
    if |a| > 0 {
      assert a == [a[0]] + a[1..];
      NoDuplicatesOnce(a[1..], x);
      if a[0] == x {
        assert x !in a[1..];
      }
    }
  }

  /** A permutation of a duplicate-free sequence is duplicate-free. */
  lemma PermutationNoDuplicates<T>(a: seq<T>, b: seq<T>)
    requires multiset(a) == multiset(b) && NoDuplicates(a)
    ensures NoDuplicates(b)
  {
    forall i, j | 0 <= i < j < |b| ensures b[i] != b[j] {
      if b[i] == b[j] {
        NoDuplicatesOnce(a, b[i]);
        Repeated(b, i, j);
      }
    }
  }

  /** An element at two positions occurs at least twice. */
  lemma Repeated<T>(b: seq<T>, i: nat, j: nat)
    requires i < j < |b| && b[i] == b[j]
    ensures multiset(b)[b[i]] >= 2
  {
    var x := b[i];
    assert b == b[..j] + b[j..];
    assert x in b[..j] && b[j..][0] == x;
    assert multiset(b)[x] == multiset(b[..j])[x] + multiset(b[j..])[x];
  }

  /** A filter and its complement split a sequence into two parts that make up the whole. */
  lemma {:induction false} FilterPartition<T>(s: seq<T>, p: T -> bool, q: T -> bool)
    requires forall y :: q(y) == !p(y)
    ensures multiset(Filter(s, p)) + multiset(Filter(s, q)) == multiset(s)
    ensures |Filter(s, p)| + |Filter(s, q)| == |s|
  {
    if |s| > 0 {
      FilterPartition(s[1..], p, q);
      assert s == [s[0]] + s[1..];
    }
  }
}
