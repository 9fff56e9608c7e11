/**
 * Edit distance and prefix edit distance. The search code calls a PED
 * routine that is not part of this model; `Ped` is its reference
 * definition: the least edit distance between `x` and some prefix of `y`.
 */
module PrefixEditDistance {
  import opened Seqs

  function Min3(a: nat, b: nat, c: nat): (m: nat)
    ensures m <= a && m <= b && m <= c
    ensures m == a || m == b || m == c
  {
    if a <= b && a <= c then a else if b <= c then b else c
  }

  /** Levenshtein distance: insertions, deletions and substitutions of one character. */
  function Ed(a: string, b: string): nat
    decreases |a| + |b|
  {
    if a == [] then |b|
    else if b == [] then |a|
    else
      var a', b' := a[..|a| - 1], b[..|b| - 1];
      Min3(Ed(a', b) + 1, Ed(a, b') + 1, Ed(a', b') + if Last(a) == Last(b) then 0 else 1)
  }

  /** The least of Ed(x, y[..k]) over k in 0..j. */
  function PedUpTo(x: string, y: string, j: nat): nat
    requires j <= |y|
  {
    if j == 0 then Ed(x, y[..0])
    else
      var d := PedUpTo(x, y, j - 1);
      if d <= Ed(x, y[..j]) then d else Ed(x, y[..j])
  }

  /** Prefix edit distance: `min over j of Ed(x, y[..j])`. */
  function Ped(x: string, y: string): nat
  {
    PedUpTo(x, y, |y|)
  }

  lemma {:induction false} PedUpToMin(x: string, y: string, j: nat)
    requires j <= |y|
    ensures exists k :: 0 <= k <= j && PedUpTo(x, y, j) == Ed(x, y[..k])
    ensures forall k :: 0 <= k <= j ==> PedUpTo(x, y, j) <= Ed(x, y[..k])
  {
    if j == 0 {
      assert PedUpTo(x, y, 0) == Ed(x, y[..0]);
    } else {
      PedUpToMin(x, y, j - 1);
      if PedUpTo(x, y, j) == Ed(x, y[..j]) {
        assert 0 <= j <= j && PedUpTo(x, y, j) == Ed(x, y[..j]);
      }
    }
  }

  /** Ped is attained at some prefix of `y` and is at most Ed to every prefix. */
  lemma PedMin(x: string, y: string)
    ensures exists k :: 0 <= k <= |y| && Ped(x, y) == Ed(x, y[..k])
    ensures forall k :: 0 <= k <= |y| ==> Ped(x, y) <= Ed(x, y[..k])
  {
    PedUpToMin(x, y, |y|);
  }

  /** Ped(x, y) <= Ed(x, y[..k]) for one prefix length k. */
  lemma PedAtMost(x: string, y: string, k: nat)
    requires k <= |y|
    ensures Ped(x, y) <= Ed(x, y[..k])
  {
    PedMin(x, y);
  }

  /** A prefix length at which Ped is attained. */
  lemma PedWitness(x: string, y: string) returns (k: nat)
    ensures k <= |y| && Ped(x, y) == Ed(x, y[..k])
  {
    PedMin(x, y);
    k :| 0 <= k <= |y| && Ped(x, y) == Ed(x, y[..k]);
  }

  lemma {:induction false} EdSelf(s: string)
    ensures Ed(s, s) == 0
  {
    if s != [] {
      EdSelf(s[..|s| - 1]);
    }
  }

  /** Only equal strings are at distance 0. */
  lemma {:induction false} EdZero(a: string, b: string)
    requires Ed(a, b) == 0
    ensures a == b
    decreases |a| + |b|
  {
    if a != [] && b != [] {
      var a', b' := a[..|a| - 1], b[..|b| - 1];
      EdZero(a', b');
      assert a == a' + [Last(a)] && b == b' + [Last(b)];
    }
  }

  /** Appending `y` to `s` costs at most one insertion per character. */
  lemma {:induction false} EdAppendRight(s: string, y: string)
    ensures Ed(s, s + y) <= |y|
    decreases |y|
  {
    if y == [] {
      assert s + y == s;
      EdSelf(s);
    } else if s != [] {
      var y' := y[..|y| - 1];
      EdAppendRight(s, y');
      assert (s + y)[..|s + y| - 1] == s + y';
    }
  }

  lemma {:induction false} EdAppendLeft(s: string, y: string)
    ensures Ed(s + y, s) <= |y|
    decreases |y|
  {
    if y == [] {
      assert s + y == s;
      EdSelf(s);
    } else if s != [] {
      var y' := y[..|y| - 1];
      EdAppendLeft(s, y');
      assert (s + y)[..|s + y| - 1] == s + y';
    }
  }

  /** A common prefix never increases the distance. */
  lemma {:induction false} EdCommonPrefix(p: string, a: string, b: string)
    ensures Ed(p + a, p + b) <= Ed(a, b)
    decreases |a| + |b|
  {
    if a == [] {
      assert p + a == p;
      EdAppendRight(p, b);
    } else if b == [] {
      assert p + b == p;
      EdAppendLeft(p, a);
    } else {
      var a', b' := a[..|a| - 1], b[..|b| - 1];
      EdCommonPrefix(p, a', b);
      EdCommonPrefix(p, a, b');
      EdCommonPrefix(p, a', b');
      DropLastAppend(p, a);
      DropLastAppend(p, b);
    }
  }

  /** PED is 0 exactly when `x` is a prefix of `y`. */
  lemma PedZero(x: string, y: string)
    ensures Ped(x, y) == 0 <==> |x| <= |y| && y[..|x|] == x
  {
    if Ped(x, y) == 0 {
      var k := PedWitness(x, y);
      EdZero(x, y[..k]);
    }
    if |x| <= |y| && y[..|x|] == x {
      EdSelf(x);
      PedAtMost(x, y, |x|);
    }
  }

  /** PED never exceeds the length of `x` (delete all of it). */
  lemma PedAtMostLength(x: string, y: string)
    ensures Ped(x, y) <= |x|
  {
    PedAtMost(x, y, 0);
    assert y[..0] == [];
  }
}
