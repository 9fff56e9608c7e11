/**
 * Python's `sorted(s, key=...)`: a stable sort. Every key the exercises
 * sort by is an integer or a pair of integers compared
 * lexicographically, so keys are modelled as pairs (a single integer k
 * is the pair (k, 0)); `reverse=True`, which Python also keeps stable, is
 * a sort by the negated key.
 */
module Sorting {
  import opened Seqs

  type Key = (int, int)

  predicate KeyLe(a: Key, b: Key)
  {
    a.0 < b.0 || (a.0 == b.0 && a.1 <= b.1)
  }

  predicate SortedBy<T>(s: seq<T>, key: T -> Key)
  {
    forall i, j :: 0 <= i < j < |s| ==> KeyLe(key(s[i]), key(s[j]))
  }

  /** The elements whose key equals the key of `z`. */
  function SameKey<T>(key: T -> Key, z: T): T -> bool
  {
    y => key(y) == key(z)
  }

  /** Inserts `x` after every element whose key is not greater than its own. */
  function Insert<T>(t: seq<T>, x: T, key: T -> Key): (r: seq<T>)
    requires SortedBy(t, key)
    ensures multiset(r) == multiset(t) + multiset{x}
    ensures SortedBy(r, key)
  {
    if t == [] then [x]
    else if KeyLe(key(Last(t)), key(x)) then t + [x]
    else
      var r := Insert(t[..|t| - 1], x, key);
      MultisetLast(t);
      assert forall i :: 0 <= i < |r| ==> KeyLe(key(r[i]), key(Last(t))) by {
        forall i | 0 <= i < |r|
          ensures KeyLe(key(r[i]), key(Last(t)))
        {
          assert r[i] in multiset(r);
        }
      }
      r + [Last(t)]
  }

  /** `sorted(s, key=key)`: insertion sort, which is stable. */
  function SortBy<T>(s: seq<T>, key: T -> Key): (r: seq<T>)
    ensures SortedBy(r, key)
    ensures multiset(r) == multiset(s)
  {
    if s == [] then []
    else
      MultisetLast(s);
      Insert(SortBy(s[..|s| - 1], key), Last(s), key)
  }

  /** What is left of a sorted sequence after filtering is still sorted. */
  lemma {:induction false} FilterSorted<T>(s: seq<T>, p: T -> bool, key: T -> Key)
    requires SortedBy(s, key)
    ensures SortedBy(Filter(s, p), key)
  {
    if s != [] {
      var init := s[..|s| - 1];
      FilterSorted(init, p, key);
      var f := Filter(init, p);
      forall i | 0 <= i < |f|
        ensures KeyLe(key(f[i]), key(Last(s)))
      {
        var j :| 0 <= j < |init| && init[j] == f[i];
      }
    }
  }

  lemma {:induction false} InsertStable<T>(t: seq<T>, x: T, key: T -> Key, z: T)
    requires SortedBy(t, key)
    ensures Filter(Insert(t, x, key), SameKey(key, z))
         == Filter(t, SameKey(key, z)) + Filter([x], SameKey(key, z))
  {
    var p := SameKey(key, z);
    if t == [] {
      assert Insert(t, x, key) == [x];
      assert Filter(t, p) == [];
    } else if KeyLe(key(Last(t)), key(x)) {
      assert Insert(t, x, key) == t + [x];
      FilterAppend(t, [x], p);
    } else {
      InsertStable(t[..|t| - 1], x, key, z);
      InsertStableStep(t, x, key, z);
    }
  }

  /** The case where `x` goes in before the last element of `t`, whose key is greater. */
  lemma InsertStableStep<T>(t: seq<T>, x: T, key: T -> Key, z: T)
    requires SortedBy(t, key) && t != [] && !KeyLe(key(Last(t)), key(x))
    requires Filter(Insert(t[..|t| - 1], x, key), SameKey(key, z))
          == Filter(t[..|t| - 1], SameKey(key, z)) + Filter([x], SameKey(key, z))
    ensures Filter(Insert(t, x, key), SameKey(key, z))
         == Filter(t, SameKey(key, z)) + Filter([x], SameKey(key, z))
  {
    var p, init, y := SameKey(key, z), t[..|t| - 1], Last(t);
    var r := Insert(init, x, key);
    assert Insert(t, x, key) == r + [y];
    FilterAppend(r, [y], p);
    FilterSingle(x, p);
    FilterSingle(y, p);
    assert Filter(t, p) == Filter(init, p) + Filter([y], p);
    assert key(x) != key(y);
    SwapEmpty(Filter(init, p), Filter([x], p), Filter([y], p));
  }

  /** Elements with equal keys leave the sort in the order they entered it. */
  lemma {:induction false} SortStable<T>(s: seq<T>, key: T -> Key, z: T)
    ensures Filter(SortBy(s, key), SameKey(key, z)) == Filter(s, SameKey(key, z))
  {
    if s != [] {
      SortStable(s[..|s| - 1], key, z);
      SortStableStep(s, key, z);
    }
  }

  lemma SortStableStep<T>(s: seq<T>, key: T -> Key, z: T)
    requires s != []
    requires Filter(SortBy(s[..|s| - 1], key), SameKey(key, z)) == Filter(s[..|s| - 1], SameKey(key, z))
    ensures Filter(SortBy(s, key), SameKey(key, z)) == Filter(s, SameKey(key, z))
  {
    var init, p := s[..|s| - 1], SameKey(key, z);
    InsertStable(SortBy(init, key), Last(s), key, z);
    FilterSingle(Last(s), p);
  }
}
