/**
 * Generic sequence helpers shared by the modules of the search-engine
 * exercises: occurrence counts, filtering, flattening and the
 * "order of first appearance" that Python dictionaries keep for their keys.
 */
module Seqs {

  function Last<T>(s: seq<T>): T
    requires |s| > 0
  {
    s[|s| - 1]
  }

  /** Number of occurrences of `x` in `s`. */
  function Count<T(==)>(x: T, s: seq<T>): (n: nat)
    ensures n <= |s|
    ensures n > 0 <==> x in s
  {
    if s == [] then 0
    else Count(x, s[..|s| - 1]) + (if Last(s) == x then 1 else 0)
  }

  lemma {:induction false} CountAppend<T>(x: T, a: seq<T>, b: seq<T>)
    ensures Count(x, a + b) == Count(x, a) + Count(x, b)
    decreases |b|
  {
    if b == [] {
      assert a + b == a;
    } else {
      assert (a + b)[..|a + b| - 1] == a + b[..|b| - 1];
      CountAppend(x, a, b[..|b| - 1]);
    }
  }

  /** The elements of `s` that satisfy `p`, in order. */
  function Filter<T>(s: seq<T>, p: T -> bool): (r: seq<T>)
    ensures |r| <= |s|
    ensures forall i :: 0 <= i < |r| ==> p(r[i]) && r[i] in s
  {
    if s == [] then []
    else Filter(s[..|s| - 1], p) + (if p(Last(s)) then [Last(s)] else [])
  }

  lemma {:induction false} FilterAppend<T>(a: seq<T>, b: seq<T>, p: T -> bool)
    ensures Filter(a + b, p) == Filter(a, p) + Filter(b, p)
    decreases |b|
  {
    if b == [] {
      assert a + b == a;
    } else {
      assert (a + b)[..|a + b| - 1] == a + b[..|b| - 1];
      FilterAppend(a, b[..|b| - 1], p);
    }
  }

  lemma FilterSingle<T>(x: T, p: T -> bool)
    ensures Filter([x], p) == if p(x) then [x] else []
  {
    assert [x][..0] == [];
  }

  lemma {:induction false} FilterAll<T>(s: seq<T>, p: T -> bool)
    requires forall i :: 0 <= i < |s| ==> p(s[i])
    ensures Filter(s, p) == s
  {
    if s != [] {
      FilterAll(s[..|s| - 1], p);
    }
  }

  lemma {:induction false} FilterNone<T>(s: seq<T>, p: T -> bool)
    requires forall i :: 0 <= i < |s| ==> !p(s[i])
    ensures Filter(s, p) == []
  {
    if s != [] {
      FilterNone(s[..|s| - 1], p);
    }
  }

  lemma FilterAppend4<T>(a: seq<T>, b: seq<T>, c: seq<T>, d: seq<T>, p: T -> bool)
    ensures Filter(a + b + c + d, p) == Filter(a, p) + Filter(b, p) + Filter(c, p) + Filter(d, p)
  {
    FilterAppend(a + b + c, d, p);
    FilterAppend(a + b, c, p);
    FilterAppend(a, b, p);
  }

  /** Filtering kept/dropped/kept/dropped blocks leaves the two kept blocks. */
  lemma FilterKeepDrop<T>(a: seq<T>, b: seq<T>, c: seq<T>, d: seq<T>, p: T -> bool)
    requires forall i :: 0 <= i < |a| ==> p(a[i])
    requires forall i :: 0 <= i < |b| ==> !p(b[i])
    requires forall i :: 0 <= i < |c| ==> p(c[i])
    requires forall i :: 0 <= i < |d| ==> !p(d[i])
    ensures Filter(a + b + c + d, p) == a + c
  {
    FilterAll(a, p);
    FilterNone(b, p);
    FilterAll(c, p);
    FilterNone(d, p);
    FilterAppend4(a, b, c, d, p);
    DropEmpty(Filter(a, p), Filter(b, p), Filter(c, p), Filter(d, p));
  }

  /** The prefixes of a four-element sequence. */
  lemma Take4<T>(a: T, b: T, c: T, d: T)
    ensures [a, b, c, d][..3] == [a, b, c] && [a, b, c][..2] == [a, b]
    ensures [a, b][..1] == [a] && [a][..0] == []
  {
  }

  /** A five-element sequence built one element at a time. */
  lemma Snoc5<T>(s: seq<T>)
    requires |s| == 5
    ensures [s[0]] + [s[1]] + [s[2]] + [s[3]] + [s[4]] == s
    ensures [] + [s[0]] == [s[0]]
  {
  }

  lemma DropEmpty<T>(a: seq<T>, b: seq<T>, c: seq<T>, d: seq<T>)
    requires b == [] && d == []
    ensures a + b + c + d == a + c
  {
  }

  /** An element that passes the filter has a place in its result. */
  lemma {:induction false} FilterIndexOf<T>(s: seq<T>, p: T -> bool, i: nat) returns (a: nat)
    requires i < |s| && p(s[i])
    ensures a == |Filter(s[..i], p)| && a < |Filter(s, p)| && Filter(s, p)[a] == s[i]
  {
    var init := s[..|s| - 1];
    if i < |init| {
      a := FilterIndexOf(init, p, i);
      assert init[..i] == s[..i];
    } else {
      assert s[..i] == init;
      a := |Filter(init, p)|;
    }
  }

  /** The filter keeps the order of the elements that pass it. */
  lemma {:induction false} FilterOrder<T>(s: seq<T>, p: T -> bool, i: nat, j: nat) returns (a: nat, b: nat)
    requires i < j < |s| && p(s[i]) && p(s[j])
    ensures a < b < |Filter(s, p)| && Filter(s, p)[a] == s[i] && Filter(s, p)[b] == s[j]
  {
    a := FilterIndexOf(s, p, i);
    b := FilterIndexOf(s, p, j);
    assert s[..j] == s[..i] + s[i..j];
    FilterAppend(s[..i], s[i..j], p);
    assert s[i..j] == [s[i]] + s[i + 1..j];
    FilterAppend([s[i]], s[i + 1..j], p);
    FilterSingle(s[i], p);
  }

  /** Filtering by a weaker condition first changes nothing. */
  lemma {:induction false} FilterFilter<T>(s: seq<T>, p: T -> bool, p2: T -> bool)
    requires forall x :: p2(x) ==> p(x)
    ensures Filter(Filter(s, p), p2) == Filter(s, p2)
  {
    if s != [] {
      var init := s[..|s| - 1];
      FilterFilter(init, p, p2);
      FilterAppend(Filter(init, p), if p(Last(s)) then [Last(s)] else [], p2);
      FilterSingle(Last(s), p2);
      assert Filter([], p2) == [];
    }
  }

  /** The length of the longest prefix of `s` whose elements satisfy `p`. */
  function Leading<T>(s: seq<T>, p: T -> bool): (k: nat)
    ensures k <= |s|
    ensures forall i :: 0 <= i < k ==> p(s[i])
    ensures k < |s| ==> !p(s[k])
  {
    if s == [] || !p(s[0]) then 0 else 1 + Leading(s[1..], p)
  }

  /** A prefix of elements satisfying `p`, followed by one that does not, is the leading run. */
  lemma {:induction false} LeadingPrefix<T>(w: seq<T>, rest: seq<T>, p: T -> bool)
    requires forall k :: 0 <= k < |w| ==> p(w[k])
    requires rest == [] || !p(rest[0])
    ensures Leading(w + rest, p) == |w|
  {
    if w != [] {
      assert (w + rest)[1..] == w[1..] + rest;
      LeadingPrefix(w[1..], rest, p);
    } else {
      assert w + rest == rest;
    }
  }

  /** Concatenation of a sequence of sequences (`itertools.chain`). */
  function Flatten<T>(ss: seq<seq<T>>): (r: seq<T>)
  {
    if ss == [] then [] else Flatten(ss[..|ss| - 1]) + Last(ss)
  }

  lemma FlattenTwo<T>(a: seq<T>, b: seq<T>)
    ensures Flatten([a, b]) == a + b
  {
    assert [a, b][..1] == [a] && [a][..0] == [];
    assert Flatten([a]) == a;
  }

  /** Two pieces of which one is empty can trade places. */
  lemma SwapEmpty<T>(a: seq<T>, b: seq<T>, c: seq<T>)
    requires b == [] || c == []
    ensures a + b + c == a + c + b
  {
  }

  lemma MultisetLast<T>(s: seq<T>)
    requires s != []
    ensures multiset(s) == multiset(s[..|s| - 1]) + multiset{Last(s)}
  {
    assert s == s[..|s| - 1] + [Last(s)];
  }

  /** Dropping the last element of `a + b` drops it from `b`. */
  lemma DropLastAppend<T>(a: seq<T>, b: seq<T>)
    requires b != []
    ensures (a + b)[..|a + b| - 1] == a + b[..|b| - 1] && Last(a + b) == Last(b)
  {
  }

  /** Adding `c` at the end of the last piece adds it at the end of the whole. */
  lemma FlattenExtendLast<T>(r: seq<seq<T>>, c: T)
    requires r != []
    ensures Flatten(r[..|r| - 1] + [Last(r) + [c]]) == Flatten(r) + [c]
  {
    var front, y := r[..|r| - 1], Last(r) + [c];
    assert (front + [y])[..|front|] == front;
  }

  lemma {:induction false} FlattenAppend<T>(a: seq<seq<T>>, b: seq<seq<T>>)
    ensures Flatten(a + b) == Flatten(a) + Flatten(b)
    decreases |b|
  {
    if b == [] {
      assert a + b == a;
    } else {
      assert (a + b)[..|a + b| - 1] == a + b[..|b| - 1];
      FlattenAppend(a, b[..|b| - 1]);
    }
  }

  ghost predicate Distinct<T>(s: seq<T>) {
    forall i, j :: 0 <= i < j < |s| ==> s[i] != s[j]
  }

  /** Index of the first occurrence of `x` in `s`. */
  function FirstIndex<T(==)>(x: T, s: seq<T>): (i: nat)
    requires x in s
    ensures i < |s| && s[i] == x && x !in s[..i]
  {
    if s[0] == x then 0
    else
      assert s == [s[0]] + s[1..];
      1 + FirstIndex(x, s[1..])
  }

  /**
   * The distinct elements of `s` in order of first appearance: the key
   * order of a Python dictionary filled by scanning `s`.
   */
  function FirstSeen<T(==)>(s: seq<T>): (r: seq<T>)
  {
    if s == [] then []
    else
      var f := FirstSeen(s[..|s| - 1]);
      if Last(s) in f then f else f + [Last(s)]
  }

  lemma {:induction false} FirstSeenElements<T>(s: seq<T>)
    ensures Distinct(FirstSeen(s))
    ensures forall x :: x in FirstSeen(s) <==> x in s
  {
    if s != [] {
      var init := s[..|s| - 1];
      FirstSeenElements(init);
      assert s == init + [Last(s)];
      forall x
        ensures x in s <==> x in init || x == Last(s)
      {
        if x in s {
          var k :| 0 <= k < |s| && s[k] == x;
          if k < |s| - 1 { assert init[k] == x; }
        }
      }
    }
  }

  /**
   * FirstSeen lists elements by increasing position of their first
   * occurrence in the input.
   */
  lemma {:induction false} FirstSeenOrder<T>(s: seq<T>, i: nat, j: nat)
    requires i < j < |FirstSeen(s)|
    ensures FirstSeen(s)[i] in s && FirstSeen(s)[j] in s
    ensures FirstIndex(FirstSeen(s)[i], s) < FirstIndex(FirstSeen(s)[j], s)
  {
    var init := s[..|s| - 1];
    var f := FirstSeen(init);
    var x, y := FirstSeen(s)[i], FirstSeen(s)[j];
    FirstSeenMember(s, y);
    assert x == f[i];
    FirstSeenMember(init, x);
    assert init == s[..|init|];
    FirstIndexPrefix(x, init, s);
    if j < |f| {
      FirstSeenOrder(init, i, j);
      FirstSeenMember(init, y);
      FirstIndexPrefix(y, init, s);
    } else {
      assert y == Last(s) && y !in f;
      FirstSeenElements(init);
      assert forall k :: 0 <= k < |init| ==> s[k] == init[k];
    }
  }

  /** One more element: it is appended unless already seen. */
  lemma FirstSeenSnoc<T>(s: seq<T>, x: T)
    ensures FirstSeen(s + [x]) == if x in s then FirstSeen(s) else FirstSeen(s) + [x]
  {
    assert (s + [x])[..|s|] == s;
    FirstSeenElements(s);
  }

  /** An element of one of the sequences is an element of their concatenation. */
  lemma {:induction false} FlattenMember<T>(ss: seq<seq<T>>, i: nat, x: T)
    requires i < |ss| && x in ss[i]
    ensures x in Flatten(ss)
  {
    if i < |ss| - 1 {
      FlattenMember(ss[..|ss| - 1], i, x);
    }
  }

  /** An element of a sequence without repetition occurs once. */
  lemma {:induction false} CountDistinct<T>(x: T, s: seq<T>)
    requires Distinct(s)
    ensures Count(x, s) == if x in s then 1 else 0
  {
    if s != [] {
      var init := s[..|s| - 1];
      CountDistinct(x, init);
      assert s == init + [Last(s)];
      assert Last(s) !in init;
    }
  }

  lemma FirstSeenMember<T>(s: seq<T>, x: T)
    requires x in FirstSeen(s)
    ensures x in s
  {
    FirstSeenElements(s);
  }

  lemma FirstIndexPrefix<T>(x: T, init: seq<T>, s: seq<T>)
    requires x in init && |init| <= |s| && init == s[..|init|]
    ensures x in s && FirstIndex(x, s) == FirstIndex(x, init)
  {
    var a, b := FirstIndex(x, init), FirstIndex(x, s);
    assert s[a] == init[a] == x;
    assert forall k :: 0 <= k < b ==> s[..b][k] == s[k];
    assert forall k :: 0 <= k < a ==> init[..a][k] == init[k] == s[k];
  }

  /**
   * The maximal runs of elements satisfying `p`, in order. A regular
   * expression split on `[^p]+` that drops empty pieces, and
   * `str.split()` for `p` = "not whitespace", both yield these.
   */
  function Runs<T>(s: seq<T>, p: T -> bool): seq<seq<T>>
  {
    if s == [] then []
    else
      var init := s[..|s| - 1];
      var r := Runs(init, p);
      var c := Last(s);
      if !p(c) then r
      else if init != [] && p(Last(init)) then
        r[..|r| - 1] + [Last(r) + [c]]
      else
        r + [[c]]
  }

  /** A non-empty sequence of `p` elements. */
  predicate IsRun<T>(w: seq<T>, p: T -> bool)
  {
    |w| > 0 && forall i :: 0 <= i < |w| ==> p(w[i])
  }

  /** Every run is a non-empty sequence of `p` elements, and one ends where a `p` element ends the input. */
  lemma {:induction false} RunsAreRuns<T>(s: seq<T>, p: T -> bool)
    ensures forall k :: 0 <= k < |Runs(s, p)| ==> IsRun(Runs(s, p)[k], p)
    ensures s != [] && p(Last(s)) ==> Runs(s, p) != [] && Last(Last(Runs(s, p))) == Last(s)
  {
    if s != [] {
      var init := s[..|s| - 1];
      RunsAreRuns(init, p);
      var r := Runs(init, p);
      if p(Last(s)) && init != [] && p(Last(init)) {
        var w := Last(r) + [Last(s)];
        assert IsRun(w, p);
        assert Runs(s, p) == r[..|r| - 1] + [w];
      } else if p(Last(s)) {
        assert IsRun([Last(s)], p);
        assert Runs(s, p) == r + [[Last(s)]];
      }
    }
  }

  /** The runs hold exactly the `p` elements, in order. */
  lemma {:induction false} RunsFlatten<T>(s: seq<T>, p: T -> bool)
    ensures Flatten(Runs(s, p)) == Filter(s, p)
  {
    if s != [] {
      var init := s[..|s| - 1];
      var r := Runs(init, p);
      var c := Last(s);
      RunsFlatten(init, p);
      if p(c) && init != [] && p(Last(init)) {
        FlattenExtendLast(r, c);
      }
    }
  }

  /** An element outside `p` separates the runs on its two sides. */
  lemma {:induction false} RunsSeparated<T>(a: seq<T>, c: T, b: seq<T>, p: T -> bool)
    requires !p(c)
    ensures Runs(a + [c] + b, p) == Runs(a, p) + Runs(b, p)
    decreases |b|
  {
    if b == [] {
      assert (a + [c] + b)[..|a|] == a;
    } else {
      RunsSeparated(a, c, b[..|b| - 1], p);
      RunsSeparatedStep(a, c, b, p);
    }
  }

  lemma RunsSeparatedStep<T>(a: seq<T>, c: T, b: seq<T>, p: T -> bool)
    requires !p(c) && b != []
    requires Runs(a + [c] + b[..|b| - 1], p) == Runs(a, p) + Runs(b[..|b| - 1], p)
    ensures Runs(a + [c] + b, p) == Runs(a, p) + Runs(b, p)
  {
    SeparatedLast(a, c, b);
    RunsStep(a + [c] + b, Runs(a, p), b, c, p);
  }

  /** `s` ends like `b`, and before that in `c` or like `b` without its last element. */
  lemma RunsStep<T>(s: seq<T>, ra: seq<seq<T>>, b: seq<T>, c: T, p: T -> bool)
    requires !p(c) && b != [] && |s| >= 2 && Last(s) == Last(b)
    requires Last(s[..|s| - 1]) == if |b| == 1 then c else Last(b[..|b| - 1])
    requires Runs(s[..|s| - 1], p) == ra + Runs(b[..|b| - 1], p)
    ensures Runs(s, p) == ra + Runs(b, p)
  {
    if !p(Last(b)) {
    } else if |b| > 1 && p(Last(b[..|b| - 1])) {
      RunsJoin(s, ra, b, p);
    } else {
      RunsStart(s, ra, b, p);
    }
  }

  lemma SeparatedLast<T>(a: seq<T>, c: T, b: seq<T>)
    requires b != []
    ensures var s := a + [c] + b;
      |s| >= 2 && s[..|s| - 1] == a + [c] + b[..|b| - 1] && Last(s) == Last(b)
      && Last(s[..|s| - 1]) == if |b| == 1 then c else Last(b[..|b| - 1])
  {
    DropLastAppend(a + [c], b);
    if |b| > 1 {
      DropLastAppend(a + [c], b[..|b| - 1]);
    }
  }

  /** The last element extends the last run on both sides. */
  lemma RunsJoin<T>(s: seq<T>, ra: seq<seq<T>>, b: seq<T>, p: T -> bool)
    requires |s| >= 2 && |b| >= 2 && Last(s) == Last(b) && p(Last(b))
    requires Last(s[..|s| - 1]) == Last(b[..|b| - 1]) && p(Last(b[..|b| - 1]))
    requires Runs(s[..|s| - 1], p) == ra + Runs(b[..|b| - 1], p)
    ensures Runs(s, p) == ra + Runs(b, p)
  {
    var rb := Runs(b[..|b| - 1], p);
    RunsAreRuns(b[..|b| - 1], p);
    ReplaceLast(ra, rb, Last(rb) + [Last(b)]);
  }

  /** The last element starts a new run on both sides. */
  lemma RunsStart<T>(s: seq<T>, ra: seq<seq<T>>, b: seq<T>, p: T -> bool)
    requires s != [] && b != [] && Last(s) == Last(b) && p(Last(b))
    requires |s| >= 2 && !p(Last(s[..|s| - 1]))
    requires |b| >= 2 ==> !p(Last(b[..|b| - 1]))
    requires Runs(s[..|s| - 1], p) == ra + Runs(b[..|b| - 1], p)
    ensures Runs(s, p) == ra + Runs(b, p)
  {
    var rb := Runs(b[..|b| - 1], p);
    assert Runs(s, p) == ra + rb + [[Last(b)]];
    assert Runs(b, p) == rb + [[Last(b)]];
    AppendAssoc(ra, rb, [[Last(b)]]);
  }

  /** Replacing the last element of `ra + rb` replaces the last element of `rb`. */
  lemma ReplaceLast<U>(ra: seq<U>, rb: seq<U>, y: U)
    requires rb != []
    ensures var x := ra + rb; x[..|x| - 1] + [y] == ra + (rb[..|rb| - 1] + [y]) && Last(x) == Last(rb)
  {
    DropLastAppend(ra, rb);
  }

  lemma AppendAssoc<U>(a: seq<U>, b: seq<U>, c: seq<U>)
    ensures a + b + c == a + (b + c)
  {
  }

  /** One more element of `s` scanned after `seen`. */
  lemma ScanStep<U>(seen: seq<U>, s: seq<U>, k: nat)
    requires k < |s|
    ensures seen + s[..k + 1] == (seen + s[..k]) + [s[k]]
  {
    assert s[..k + 1] == s[..k] + [s[k]];
  }

  /** A non-empty sequence made only of `p` elements is a single run. */
  lemma {:induction false} RunsWhole<T>(s: seq<T>, p: T -> bool)
    requires s != [] && forall i :: 0 <= i < |s| ==> p(s[i])
    ensures Runs(s, p) == [s]
  {
    var init := s[..|s| - 1];
    if init != [] {
      RunsWhole(init, p);
      assert init + [Last(s)] == s;
    } else {
      assert Runs(init, p) == [];
      assert s == [Last(s)];
    }
  }

  /** A sequence with no `p` element has no runs. */
  lemma {:induction false} RunsNone<T>(s: seq<T>, p: T -> bool)
    requires forall i :: 0 <= i < |s| ==> !p(s[i])
    ensures Runs(s, p) == []
  {
    if s != [] {
      RunsNone(s[..|s| - 1], p);
    }
  }
}
