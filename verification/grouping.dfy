/**
 * Grouping by key with a per-group sum: the `forEach` that accumulates
 * `totals[key(t)] = (totals[key(t)] || 0) + val(t)` into a plain object, read back
 * with `Object.entries`. Groups come in the order their key first occurs.
 */
module Grouping {
  import Seqs

  datatype Group<K> = Group(name: K, value: int)

  function GroupValue<K>(g: Group<K>): int { g.value }

  function GroupName<K>(g: Group<K>): K { g.name }

  /** The elements of `s` whose key is `k`. */
  function KeyIs<T, K(==)>(key: T -> K, k: K): T -> bool {
    (t: T) => key(t) == k
  }

  /** The sum of `val` over the elements of `s` whose key is `k`. */
  function GroupTotal<T(==), K(==)>(s: seq<T>, key: T -> K, val: T -> int, k: K): int {
    Seqs.SumBy(Seqs.Filter(s, KeyIs(key, k)), val)
  }

  /** The distinct keys of `s`, in order of first occurrence. */
  function Keys<T, K(==)>(s: seq<T>, key: T -> K): seq<K> {
    Seqs.Dedup(Seqs.Map(s, key))
  }

  /** One group per listed key, with that key's total. */
  function Totals<T(==), K(==)>(ks: seq<K>, s: seq<T>, key: T -> K, val: T -> int): (r: seq<Group<K>>)
    ensures |r| == |ks|
    ensures forall i :: 0 <= i < |ks| ==> r[i] == Group(ks[i], GroupTotal(s, key, val, ks[i]))
  {
    if |ks| == 0 then [] else [Group(ks[0], GroupTotal(s, key, val, ks[0]))] + Totals(ks[1..], s, key, val)
  }

  /** The groups of `s`: one per distinct key, first occurrence first. */
  function GroupBy<T(==), K(==)>(s: seq<T>, key: T -> K, val: T -> int): seq<Group<K>> {
    Totals(Keys(s, key), s, key, val)
  }

  // ---------------------------------------------------------------------------
  // The group totals add up to the overall total
  // ---------------------------------------------------------------------------

  function KeySum<T(==), K(==)>(ks: seq<K>, s: seq<T>, key: T -> K, val: T -> int): int {
    if |ks| == 0 then 0 else GroupTotal(s, key, val, ks[0]) + KeySum(ks[1..], s, key, val)
  }

  lemma {:induction false} TotalsSum<T, K>(ks: seq<K>, s: seq<T>, key: T -> K, val: T -> int)
    ensures Seqs.SumBy(Totals(ks, s, key, val), GroupValue) == KeySum(ks, s, key, val)
  {
    if |ks| > 0 {
      TotalsSum(ks[1..], s, key, val);
      var r := Totals(ks, s, key, val);
      assert r[1..] == Totals(ks[1..], s, key, val);
    }
  }

  lemma {:induction false} MapAppendOne<T, U>(s: seq<T>, x: T, f: T -> U)
    ensures Seqs.Map(s + [x], f) == Seqs.Map(s, f) + [f(x)]
  {
  }

  /** Appending one element adds its value to the total of its own key only. */
  lemma GroupTotalAppend<T, K>(s: seq<T>, x: T, key: T -> K, val: T -> int, k: K)
    ensures GroupTotal(s + [x], key, val, k)
         == GroupTotal(s, key, val, k) + (if key(x) == k then val(x) else 0)
  {
    var p := KeyIs(key, k);
    Seqs.FilterAppend(s, [x], p);
    Seqs.SumByAppend(Seqs.Filter(s, p), Seqs.Filter([x], p), val);
    assert [x][1..] == [];
  }

  /** A key that does not occur has total zero. */
  lemma AbsentKeyTotal<T, K>(s: seq<T>, key: T -> K, val: T -> int, k: K)
    requires k !in Seqs.Map(s, key)
    ensures GroupTotal(s, key, val, k) == 0
  {
  }

  lemma {:induction false} KeySumAppendElement<T, K>(ks: seq<K>, s: seq<T>, x: T, key: T -> K, val: T -> int)
    requires Seqs.NoDuplicates(ks)
    ensures KeySum(ks, s + [x], key, val) == KeySum(ks, s, key, val) + (if key(x) in ks then val(x) else 0)
  {
    if |ks| > 0 {
      GroupTotalAppend(s, x, key, val, ks[0]);
      KeySumAppendElement(ks[1..], s, x, key, val);
      assert ks == [ks[0]] + ks[1..];
    }
  }

  lemma {:induction false} KeySumAppendKey<T, K>(ks: seq<K>, k: K, s: seq<T>, key: T -> K, val: T -> int)
    ensures KeySum(ks + [k], s, key, val) == KeySum(ks, s, key, val) + GroupTotal(s, key, val, k)
  {
    if |ks| == 0 {
      assert ks + [k] == [k];
    } else {
      assert (ks + [k])[1..] == ks[1..] + [k];
      KeySumAppendKey(ks[1..], k, s, key, val);
    }
  }

  /** Summing the group totals gives the sum over all elements. */
  lemma {:induction false} GroupBySum<T, K>(s: seq<T>, key: T -> K, val: T -> int)
    ensures Seqs.SumBy(GroupBy(s, key, val), GroupValue) == Seqs.SumBy(s, val)
    decreases |s|
  {
    TotalsSum(Keys(s, key), s, key, val);
    KeysSum(s, key, val);
  }

  lemma {:induction false} KeysSum<T, K>(s: seq<T>, key: T -> K, val: T -> int)
    ensures KeySum(Keys(s, key), s, key, val) == Seqs.SumBy(s, val)
    decreases |s|
  {
    if |s| > 0 {
      var init, x := s[..|s| - 1], s[|s| - 1];
      assert s == init + [x];
      KeysSum(init, key, val);
      MapAppendOne(init, x, key);
      var ms := Seqs.Map(s, key);
      assert ms[..|ms| - 1] == Seqs.Map(init, key);
      var ks := Keys(init, key);
      KeySumAppendElement(ks, init, x, key, val);
      Seqs.SumByAppend(init, [x], val);
      assert Seqs.SumBy([x], val) == val(x);
      if key(x) !in ks {
        KeySumAppendKey(ks, key(x), s, key, val);
        GroupTotalAppend(init, x, key, val, key(x));
        AbsentKeyTotal(init, key, val, key(x));
      }
    }
  }
}
