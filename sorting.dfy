/** JavaScript's `Array.prototype.sort` with a comparator, as an insertion sort: each element is
    moved left past every placed element the comparator puts after it. For a comparator that
    orders the elements consistently the result is the sorted order; for one that does not,
    the language leaves the order to the implementation and this is one admissible outcome. */
module Sorting {
  /** A sort key compared lexicographically: first `group`, then `value`. */
  datatype Key = Key(group: int, value: int)

  predicate KeyLe(a: Key, b: Key) {
    a.group < b.group || (a.group == b.group && a.value <= b.value)
  }

  /** Places `x` into `sorted`, scanning from the right while the comparator puts the scanned
      element after `x`. */
  function InsertSorted<T>(sorted: seq<T>, x: T, cmp: (T, T) -> int): (r: seq<T>)
    ensures multiset(r) == multiset(sorted) + multiset{x}
    ensures |r| == |sorted| + 1
    decreases |sorted|
  {
    if |sorted| == 0 then [x]
    else
      var n := |sorted| - 1;
      assert sorted == sorted[..n] + [sorted[n]];
      if cmp(sorted[n], x) > 0 then InsertSorted(sorted[..n], x, cmp) + [sorted[n]]
      else sorted + [x]
  }

  /** `s.sort(cmp)`: every element is inserted in turn, so the result is a permutation of `s`. */
  function SortWith<T>(s: seq<T>, cmp: (T, T) -> int): (r: seq<T>)
    ensures multiset(r) == multiset(s)
    ensures |r| == |s|
  {
    if |s| == 0 then []
    else
      var n := |s| - 1;
      assert s == s[..n] + [s[n]];
      InsertSorted(SortWith(s[..n], cmp), s[n], cmp)
  }

  /** Keys never decrease along `s`. */
  ghost predicate SortedBy<T>(s: seq<T>, key: T -> Key) {
    forall i, j :: 0 <= i < j < |s| ==> KeyLe(key(s[i]), key(s[j]))
  }

  /** On the elements of `s`, the comparator's verdict matches the key order: a result `<= 0`
      means the first key is not above the second, a result `> 0` that it is not below. */
  ghost predicate AgreesWith<T>(s: seq<T>, cmp: (T, T) -> int, key: T -> Key) {
    forall i, j :: 0 <= i < |s| && 0 <= j < |s| ==>
      (cmp(s[i], s[j]) <= 0 ==> KeyLe(key(s[i]), key(s[j]))) &&
      (cmp(s[i], s[j]) > 0 ==> KeyLe(key(s[j]), key(s[i])))
  }

  /** Agreement carries over to any list whose elements all occur in `s`. */
  lemma AgreesWithSubset<T>(s: seq<T>, t: seq<T>, cmp: (T, T) -> int, key: T -> Key)
    requires AgreesWith(s, cmp, key)
    requires forall i :: 0 <= i < |t| ==> t[i] in multiset(s)
    ensures AgreesWith(t, cmp, key)
  {
    forall i, j | 0 <= i < |t| && 0 <= j < |t|
      ensures (cmp(t[i], t[j]) <= 0 ==> KeyLe(key(t[i]), key(t[j])))
      ensures (cmp(t[i], t[j]) > 0 ==> KeyLe(key(t[j]), key(t[i])))
    {
      assert t[i] in s && t[j] in s;
      var i' :| 0 <= i' < |s| && s[i'] == t[i];
      var j' :| 0 <= j' < |s| && s[j'] == t[j];
    }
  }

  /** Inserting into a sorted list keeps it sorted when the comparator agrees with the key. */
  lemma {:induction false} InsertKeepsSorted<T>(sorted: seq<T>, x: T, cmp: (T, T) -> int, key: T -> Key)
    requires SortedBy(sorted, key)
    requires AgreesWith(sorted + [x], cmp, key)
    ensures SortedBy(InsertSorted(sorted, x, cmp), key)
    decreases |sorted|
  {
    if |sorted| > 0 {
      var n := |sorted| - 1;
      var y := sorted[n];
      var all := sorted + [x];
      assert all[n] == y && all[n + 1] == x;
      if cmp(y, x) > 0 {
        var prefix := sorted[..n];
        AgreesWithSubset(all, prefix + [x], cmp, key);
        InsertKeepsSorted(prefix, x, cmp, key);
        var r' := InsertSorted(prefix, x, cmp);
        forall i | 0 <= i < |r'|
          ensures KeyLe(key(r'[i]), key(y))
        {
          assert r'[i] in multiset(r');
          if r'[i] != x {
            assert r'[i] in prefix;
            var k :| 0 <= k < n && prefix[k] == r'[i];
            assert sorted[k] == r'[i];
          }
        }
        AppendLargest(r', y, key);
        assert InsertSorted(sorted, x, cmp) == r' + [y];
      } else {
        assert KeyLe(key(y), key(x));
        forall i | 0 <= i < |sorted|
          ensures KeyLe(key(sorted[i]), key(x))
        {
          if i < n {
            assert KeyLe(key(sorted[i]), key(y));
          }
        }
        AppendLargest(sorted, x, key);
      }
    }
  }

  /** Appending an element whose key is not below any key of a sorted list keeps it sorted. */
  lemma AppendLargest<T>(s: seq<T>, x: T, key: T -> Key)
    requires SortedBy(s, key)
    requires forall i :: 0 <= i < |s| ==> KeyLe(key(s[i]), key(x))
    ensures SortedBy(s + [x], key)
  {
    var r := s + [x];
    forall i, j | 0 <= i < j < |r|
      ensures KeyLe(key(r[i]), key(r[j]))
    {
      if j == |s| {
        assert r[i] == s[i] && r[j] == x;
      } else {
        assert r[i] == s[i] && r[j] == s[j];
      }
    }
  }

  /** Sorting with a comparator that agrees with a key orders the list by that key. */
  lemma {:induction false} SortWithSorted<T>(s: seq<T>, cmp: (T, T) -> int, key: T -> Key)
    requires AgreesWith(s, cmp, key)
    ensures SortedBy(SortWith(s, cmp), key)
  {
    if |s| > 0 {
      var n := |s| - 1;
      assert s == s[..n] + [s[n]];
      AgreesWithSubset(s, s[..n], cmp, key);
      SortWithSorted(s[..n], cmp, key);
      var placed := SortWith(s[..n], cmp);
      var all := placed + [s[n]];
      assert multiset(all) == multiset(s);
      forall i | 0 <= i < |all|
        ensures all[i] in multiset(s)
      {
        assert all[i] in multiset(all);
      }
      AgreesWithSubset(s, all, cmp, key);
      InsertKeepsSorted(placed, s[n], cmp, key);
    }
  }
}
