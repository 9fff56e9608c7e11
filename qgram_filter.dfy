/**
 * The q-gram count filter behind fuzzy prefix search: if the prefix `x`
 * is within prefix edit distance d of `y`, then at least |x| - q*d of
 * the (padded) q-grams of `y` are q-grams of `x`. Each edit can destroy
 * at most q of the q-grams.
 */
module QGramFilter {
  import opened Seqs
  import opened PrefixEditDistance

  /** The substrings of length `q` of `s`, left to right. */
  function Windows(s: string, q: nat): (w: seq<string>)
    requires q >= 1
    ensures |w| == if |s| >= q then |s| - q + 1 else 0
    ensures forall i :: 0 <= i < |w| ==> w[i] == s[i..i + q]
  {
    var n := if |s| >= q then |s| - q + 1 else 0;
    seq(n, i requires 0 <= i < n => s[i..i + q])
  }

  /** The `q - 1` padding characters put in front of a word. */
  function Pad(q: nat): (p: string)
    ensures |p| == q - 1 || (q == 0 && p == [])
  {
    seq(if q == 0 then 0 else q - 1, _ => '$')
  }

  /** The padded q-grams of `w`: one per character of `w`. */
  function PaddedGrams(w: string, q: nat): (g: seq<string>)
    requires q >= 1
    ensures |g| == |w|
  {
    Windows(Pad(q) + w, q)
  }

  /** The number of positions of `ys` holding an element of `xs`. */
  function Shared(ys: seq<string>, xs: seq<string>): (n: nat)
    ensures n <= |ys|
  {
    if ys == [] then 0
    else Shared(ys[..|ys| - 1], xs) + if Last(ys) in xs then 1 else 0
  }

  lemma {:induction false} SharedAppend(a: seq<string>, b: seq<string>, xs: seq<string>)
    ensures Shared(a + b, xs) == Shared(a, xs) + Shared(b, xs)
    decreases |b|
  {
    if b == [] {
      assert a + b == a;
    } else {
      assert (a + b)[..|a + b| - 1] == a + b[..|b| - 1];
      SharedAppend(a, b[..|b| - 1], xs);
    }
  }

  /** A larger set of q-grams to look in can only raise the count. */
  lemma {:induction false} SharedMonotone(ys: seq<string>, xs: seq<string>, zs: seq<string>)
    requires forall g :: g in xs ==> g in zs
    ensures Shared(ys, xs) <= Shared(ys, zs)
  {
    if ys != [] {
      SharedMonotone(ys[..|ys| - 1], xs, zs);
    }
  }

  lemma {:induction false} SharedAll(ys: seq<string>, xs: seq<string>)
    requires forall j :: 0 <= j < |ys| ==> ys[j] in xs
    ensures Shared(ys, xs) == |ys|
  {
    if ys != [] {
      SharedAll(ys[..|ys| - 1], xs);
    }
  }

  /** Disjoint head and tail of `ys` count separately. */
  lemma SharedHeadTail(ys: seq<string>, h: nat, t: nat, xs: seq<string>)
    requires h + t <= |ys|
    ensures Shared(ys[..h], xs) + Shared(ys[|ys| - t..], xs) <= Shared(ys, xs)
  {
    var mid := ys[h..|ys| - t];
    assert ys == ys[..h] + mid + ys[|ys| - t..];
    SharedAppend(ys[..h] + mid, ys[|ys| - t..], xs);
    SharedAppend(ys[..h], mid, xs);
  }

  lemma WindowsPrefix(u: string, v: string, q: nat)
    requires q >= 1
    ensures |Windows(u, q)| <= |Windows(u + v, q)|
    ensures Windows(u + v, q)[..|Windows(u, q)|] == Windows(u, q)
  {
    var a, b := Windows(u, q), Windows(u + v, q);
    forall i | 0 <= i < |a|
      ensures b[i] == a[i]
    {
      assert (u + v)[i..i + q] == u[i..i + q];
    }
  }

  lemma WindowsSuffix(u: string, v: string, q: nat)
    requires q >= 1
    ensures |Windows(v, q)| <= |Windows(u + v, q)|
    ensures Windows(u + v, q)[|Windows(u + v, q)| - |Windows(v, q)|..] == Windows(v, q)
  {
    var a, b := Windows(v, q), Windows(u + v, q);
    var d := |b| - |a|;
    forall i | 0 <= i < |a|
      ensures b[d + i] == a[i]
    {
      assert d == |u|;
      assert (u + v)[|u| + i..|u| + i + q] == v[i..i + q];
    }
  }

  /**
   * Core of the filter, by induction along the edit distance recursion:
   * the q-grams of `b + c` that are q-grams of `a + c` are at least
   * |a| + |c| - q + 1 - q * Ed(a, b).
   */
  lemma {:induction false} SharedAfterEdits(a: string, b: string, c: string, q: nat)
    requires q >= 1
    ensures Shared(Windows(b + c, q), Windows(a + c, q)) >= |a| + |c| - q + 1 - q * Ed(a, b)
    decreases |a| + |b|
  {
    if a == [] || b == [] {
      SharedNoEdits(a, b, c, q);
    } else {
      var a', b' := a[..|a| - 1], b[..|b| - 1];
      var e := Ed(a, b);
      if Last(a) == Last(b) && e == Ed(a', b') {
        // The last characters match: move them into the common tail.
        SharedAfterEdits(a', b', [Last(a)] + c, q);
        assert a' + ([Last(a)] + c) == a + c;
        assert b' + ([Last(b)] + c) == b + c;
      } else {
        // One edit at the end: a deletion, an insertion or a substitution.
        var a2, b2;
        if e == Ed(a', b) + 1 {
          a2, b2 := a', b;
        } else if e == Ed(a, b') + 1 {
          a2, b2 := a, b';
        } else {
          a2, b2 := a', b';
        }
        SharedAfterEdits(a2, b2, [], q);
        assert a2 + [] == a2 && b2 + [] == b2;
        SharedAfterOneEdit(a, b, c, a2, b2, q);
      }
    }
  }

  lemma SharedNoEdits(a: string, b: string, c: string, q: nat)
    requires q >= 1 && (a == [] || b == [])
    ensures Shared(Windows(b + c, q), Windows(a + c, q)) >= |a| + |c| - q + 1 - q * Ed(a, b)
  {
    var wac, wbc, wc := Windows(a + c, q), Windows(b + c, q), Windows(c, q);
    assert Shared(wbc, wac) >= |wc| by {
      WindowsSuffix(a, c, q);
      WindowsSuffix(b, c, q);
      TailCounts(wbc, wac, wc);
      SharedHeadTail(wbc, 0, |wc|, wac);
    }
    var e := Ed(a, b);
    MulAtLeast(q, e);
    assert |a| <= e;
  }

  lemma MulAtLeast(q: nat, n: nat)
    requires q >= 1
    ensures n <= q * n
  {
  }

  lemma SharedAfterOneEdit(a: string, b: string, c: string, a2: string, b2: string, q: nat)
    requires q >= 1
    requires |a| - 1 <= |a2| <= |a| && a[..|a2|] == a2
    requires |b2| <= |b| && b[..|b2|] == b2
    requires Ed(a, b) == Ed(a2, b2) + 1
    requires Shared(Windows(b2, q), Windows(a2, q)) >= |a2| - q + 1 - q * Ed(a2, b2)
    ensures Shared(Windows(b + c, q), Windows(a + c, q)) >= |a| + |c| - q + 1 - q * Ed(a, b)
  {
    var wac := Windows(a + c, q);
    TailShared(a, c, q);
    HeadShared(a2, a, b2, c, q);
    HeadTailShared(b2, b, c, wac, q);
    OneEditBound(q, Ed(a, b), Ed(a2, b2), |a|, |a2|, |c|, |Windows(c, q)|,
      Shared(Windows(b2, q), Windows(a2, q)), Shared(Windows(b2, q), wac),
      Shared(Windows(b + c, q), wac));
  }

  /** Every q-gram of the common tail `c` is a q-gram of `a + c`. */
  lemma TailShared(a: string, c: string, q: nat)
    requires q >= 1
    ensures Shared(Windows(c, q), Windows(a + c, q)) == |Windows(c, q)|
  {
    WindowsSuffix(a, c, q);
    TailCounts(Windows(a + c, q), Windows(a + c, q), Windows(c, q));
  }

  lemma HeadShared(a2: string, a: string, b2: string, c: string, q: nat)
    requires q >= 1 && |a2| <= |a| && a[..|a2|] == a2
    ensures Shared(Windows(b2, q), Windows(a2, q)) <= Shared(Windows(b2, q), Windows(a + c, q))
  {
    PrefixOfAppend(a2, a, c);
    WindowsPrefix(a2, (a + c)[|a2|..], q);
    HeadCounts(Windows(b2, q), Windows(a2, q), Windows(a + c, q));
  }

  lemma HeadTailShared(b2: string, b: string, c: string, xs: seq<string>, q: nat)
    requires q >= 1 && |b2| <= |b| && b[..|b2|] == b2
    ensures Shared(Windows(b2, q), xs) + Shared(Windows(c, q), xs) <= Shared(Windows(b + c, q), xs)
  {
    var wbc := Windows(b + c, q);
    PrefixOfAppend(b2, b, c);
    WindowsPrefix(b2, (b + c)[|b2|..], q);
    WindowsSuffix(b, c, q);
    WindowsSplitCount(b2, b, c, q);
    SharedHeadTail(wbc, |Windows(b2, q)|, |Windows(c, q)|, xs);
  }

  lemma OneEditBound(q: nat, e: nat, e2: nat, na: nat, na2: nat, nc: nat, nwc: nat,
                     s2: int, h: int, total: int)
    requires q >= 1 && e == e2 + 1 && na - 1 <= na2 <= na
    requires s2 >= na2 - q + 1 - q * e2 && h >= s2
    requires nwc >= nc - q + 1 && total >= h + nwc
    ensures total >= na + nc - q + 1 - q * e
  {
    MulSucc(q, e2);
  }

  lemma MulSucc(q: nat, e: nat)
    ensures q * (e + 1) == q * e + q
  {
  }

  lemma PrefixOfAppend(p: string, a: string, c: string)
    requires |p| <= |a| && a[..|p|] == p
    ensures p + (a + c)[|p|..] == a + c
  {
  }

  lemma TailCounts(wbc: seq<string>, wac: seq<string>, wc: seq<string>)
    requires |wc| <= |wbc| && wbc[|wbc| - |wc|..] == wc
    requires |wc| <= |wac| && wac[|wac| - |wc|..] == wc
    ensures Shared(wc, wac) == |wc|
  {
    forall j | 0 <= j < |wc|
      ensures wc[j] in wac
    {
      assert wac[|wac| - |wc| + j] == wc[j];
    }
    SharedAll(wc, wac);
  }

  lemma HeadCounts(wb2: seq<string>, wa2: seq<string>, wac: seq<string>)
    requires |wa2| <= |wac| && wac[..|wa2|] == wa2
    ensures Shared(wb2, wa2) <= Shared(wb2, wac)
  {
    forall g | g in wa2
      ensures g in wac
    {
    }
    SharedMonotone(wb2, wa2, wac);
  }

  lemma WindowsSplitCount(b2: string, b: string, c: string, q: nat)
    requires q >= 1 && |b2| <= |b|
    ensures |Windows(b2, q)| + |Windows(c, q)| <= |Windows(b + c, q)|
  {
  }

  /**
   * The count filter has no false negatives: if PED(x, y) <= delta, at
   * least |x| - q * delta padded q-grams of `y` are padded q-grams of `x`.
   */
  lemma FilterCount(x: string, y: string, q: nat)
    requires q >= 1
    ensures Shared(PaddedGrams(y, q), PaddedGrams(x, q)) >= |x| - q * Ped(x, y)
  {
    var k := PedWitness(x, y);
    var p := Pad(q);
    var u := p + y[..k];
    SharedAfterEdits(p + x, u, [], q);
    assert p + x + [] == p + x && u + [] == u;
    EdCommonPrefix(p, x, y[..k]);
    MulMonotone(q, Ed(p + x, u), Ed(x, y[..k]));
    assert u + y[k..] == p + y;
    WindowsPrefix(u, y[k..], q);
    SharedHeadTail(Windows(p + y, q), |Windows(u, q)|, 0, Windows(p + x, q));
  }

  lemma MulMonotone(q: nat, a: nat, b: nat)
    requires a <= b
    ensures q * a <= q * b
  {
  }
}
