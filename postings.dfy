/**
 * Inverted lists of postings (id, count) shared by the q-gram index and
 * the BM25 index: the occurrence-count index that both build line by
 * line, and the sort-and-fold merge of several lists.
 */
module Postings {
  import opened Seqs
  import opened Sorting

  datatype Posting = Posting(id: int, count: int)

  /** A posting whose second component is a score: a BM25 value or a sum of them. */
  datatype ScoredPosting = ScoredPosting(id: int, score: real)

  /** Total count of the postings for `id`. */
  function SumFor(id: int, ps: seq<Posting>): int
  {
    if ps == [] then 0
    else SumFor(id, ps[..|ps| - 1]) + if Last(ps).id == id then Last(ps).count else 0
  }

  lemma {:induction false} SumForAppend(id: int, a: seq<Posting>, b: seq<Posting>)
    ensures SumFor(id, a + b) == SumFor(id, a) + SumFor(id, b)
    decreases |b|
  {
    if b == [] {
      assert a + b == a;
    } else {
      assert (a + b)[..|a + b| - 1] == a + b[..|b| - 1];
      SumForAppend(id, a, b[..|b| - 1]);
    }
  }

  function Ids(ps: seq<Posting>): set<int>
  {
    set p | p in ps :: p.id
  }

  lemma IdsAppend(a: seq<Posting>, b: seq<Posting>)
    ensures Ids(a + b) == Ids(a) + Ids(b)
  {
    assert forall p :: p in a + b <==> p in a || p in b;
  }

  /** A posting list sorted by id with every id at most once. */
  predicate StrictlyAscending(ps: seq<Posting>)
  {
    forall i, j :: 0 <= i < j < |ps| ==> ps[i].id < ps[j].id
  }

  /** In a list that holds `id` once, its count is the sum for `id`. */
  lemma {:induction false} SumForAscending(id: int, ps: seq<Posting>, k: nat)
    requires StrictlyAscending(ps) && k < |ps| && ps[k].id == id
    ensures SumFor(id, ps) == ps[k].count
  {
    var init := ps[..|ps| - 1];
    if k < |ps| - 1 {
      SumForAscending(id, init, k);
    } else {
      SumForAbsent(id, init);
    }
  }

  lemma {:induction false} SumForAbsent(id: int, ps: seq<Posting>)
    requires id !in Ids(ps)
    ensures SumFor(id, ps) == 0
  {
    if ps != [] {
      assert Last(ps) in ps;
      var init := ps[..|ps| - 1];
      assert Ids(init) <= Ids(ps) by {
        forall x | x in Ids(init)
          ensures x in Ids(ps)
        {
          var p :| p in init && p.id == x;
          assert p in ps;
        }
      }
      SumForAbsent(id, init);
    }
  }

  /** Python's order on (id, count) tuples. */
  function PostingKey(p: Posting): Key
  {
    (p.id, p.count)
  }

  /**
   * The merge fold over postings sorted by id: a posting whose id equals
   * the last merged id adds its count to it, any other is appended.
   */
  function Fold(ps: seq<Posting>): seq<Posting>
  {
    if ps == [] then []
    else
      var m := Fold(ps[..|ps| - 1]);
      var p := Last(ps);
      if m != [] && Last(m).id == p.id then m[..|m| - 1] + [Posting(p.id, Last(m).count + p.count)]
      else m + [p]
  }

  /** The fold keeps every id's total count. */
  lemma {:induction false} FoldSums(id: int, ps: seq<Posting>)
    ensures SumFor(id, Fold(ps)) == SumFor(id, ps)
  {
    if ps != [] {
      var init := ps[..|ps| - 1];
      var m := Fold(init);
      var p := Last(ps);
      FoldSums(id, init);
      if m != [] && Last(m).id == p.id {
        var front := m[..|m| - 1];
        assert m == front + [Last(m)];
        SumForAppend(id, front, [Last(m)]);
        SumForAppend(id, front, [Posting(p.id, Last(m).count + p.count)]);
        assert [Last(m)][..0] == [];
      } else {
        SumForAppend(id, m, [p]);
        assert [p][..0] == [];
      }
    }
  }

  lemma FoldIdsStep(m: seq<Posting>, p: Posting)
    ensures var r := if m != [] && Last(m).id == p.id then m[..|m| - 1] + [Posting(p.id, Last(m).count + p.count)] else m + [p];
      Ids(r) == Ids(m) + {p.id} && r != [] && Last(r).id == p.id
  {
    if m != [] && Last(m).id == p.id {
      var front := m[..|m| - 1];
      assert m == front + [Last(m)];
      IdsAppend(front, [Last(m)]);
      IdsAppend(front, [Posting(p.id, Last(m).count + p.count)]);
    } else {
      IdsAppend(m, [p]);
    }
  }

  lemma IdsLast(ps: seq<Posting>)
    requires ps != []
    ensures Ids(ps) == Ids(ps[..|ps| - 1]) + {Last(ps).id}
  {
    assert ps == ps[..|ps| - 1] + [Last(ps)];
    IdsAppend(ps[..|ps| - 1], [Last(ps)]);
  }

  /** The fold keeps exactly the ids of its input. */
  lemma {:induction false} FoldIds(ps: seq<Posting>)
    ensures Ids(Fold(ps)) == Ids(ps)
    ensures ps != [] ==> Fold(ps) != [] && Last(Fold(ps)).id == Last(ps).id
  {
    if ps != [] {
      var init := ps[..|ps| - 1];
      var p := Last(ps);
      FoldIds(init);
      IdsLast(ps);
      FoldIdsStep(Fold(init), p);
    }
  }

  predicate AscendingIds(ps: seq<Posting>)
  {
    forall i, j :: 0 <= i < j < |ps| ==> ps[i].id <= ps[j].id
  }

  /** Folding postings sorted by id gives each id once, in ascending order. */
  lemma {:induction false} FoldAscending(ps: seq<Posting>)
    requires AscendingIds(ps)
    ensures StrictlyAscending(Fold(ps))
  {
    if ps != [] {
      var init := ps[..|ps| - 1];
      var m := Fold(init);
      var p := Last(ps);
      FoldAscending(init);
      FoldIds(init);
      if !(m != [] && Last(m).id == p.id) && m != [] {
        assert Last(m).id == Last(init).id <= p.id;
      }
    }
  }

  lemma SortedByKeyAscending(ps: seq<Posting>)
    requires SortedBy(ps, PostingKey)
    ensures AscendingIds(ps)
  {
    forall i, j | 0 <= i < j < |ps|
      ensures ps[i].id <= ps[j].id
    {
      assert KeyLe(PostingKey(ps[i]), PostingKey(ps[j]));
    }
  }

  lemma SumForSingle(id: int, x: Posting)
    ensures SumFor(id, [x]) == if x.id == id then x.count else 0
  {
    assert [x][..0] == [];
  }

  lemma {:induction false} InsertSums(id: int, t: seq<Posting>, x: Posting)
    requires SortedBy(t, PostingKey)
    ensures SumFor(id, Insert(t, x, PostingKey)) == SumFor(id, t) + SumFor(id, [x])
  {
    if t != [] && !KeyLe(PostingKey(Last(t)), PostingKey(x)) {
      var init := t[..|t| - 1];
      InsertSums(id, init, x);
      SumForAppend(id, Insert(init, x, PostingKey), [Last(t)]);
      SumForSingle(id, Last(t));
    } else if t != [] {
      SumForAppend(id, t, [x]);
    } else {
      assert Insert(t, x, PostingKey) == [x];
    }
  }

  /** Sorting keeps every id's total count. */
  lemma {:induction false} SortSums(id: int, ps: seq<Posting>)
    ensures SumFor(id, SortBy(ps, PostingKey)) == SumFor(id, ps)
  {
    if ps != [] {
      SortSums(id, ps[..|ps| - 1]);
      SortSumsStep(id, ps);
    }
  }

  lemma SortSumsStep(id: int, ps: seq<Posting>)
    requires ps != []
    requires SumFor(id, SortBy(ps[..|ps| - 1], PostingKey)) == SumFor(id, ps[..|ps| - 1])
    ensures SumFor(id, SortBy(ps, PostingKey)) == SumFor(id, ps)
  {
    InsertSums(id, SortBy(ps[..|ps| - 1], PostingKey), Last(ps));
    SumForSingle(id, Last(ps));
  }

  lemma SortIds(ps: seq<Posting>)
    ensures Ids(SortBy(ps, PostingKey)) == Ids(ps)
  {
    var s := SortBy(ps, PostingKey);
    assert forall p :: p in s <==> p in multiset(s);
    assert forall p :: p in ps <==> p in multiset(ps);
  }

  /**
   * `merge_lists`: the postings of all lists, sorted by (id, count) and
   * folded.
   */
  function Merged(lists: seq<seq<Posting>>): seq<Posting>
  {
    Fold(SortBy(Flatten(lists), PostingKey))
  }

  /**
   * The merged list holds each id of the input lists exactly once, in
   * ascending order, with the sum of its counts over all lists.
   */
  lemma MergedSpec(lists: seq<seq<Posting>>)
    ensures StrictlyAscending(Merged(lists))
    ensures Ids(Merged(lists)) == Ids(Flatten(lists))
    ensures forall id :: SumFor(id, Merged(lists)) == SumFor(id, Flatten(lists))
  {
    var s := SortBy(Flatten(lists), PostingKey);
    SortedByKeyAscending(s);
    FoldAscending(s);
    FoldIds(s);
    SortIds(Flatten(lists));
    forall id
      ensures SumFor(id, Merged(lists)) == SumFor(id, Flatten(lists))
    {
      FoldSums(id, s);
      SortSums(id, Flatten(lists));
    }
  }

  /** The merged count of `id` is the sum of its counts in each list. */
  function SumOverLists(id: int, lists: seq<seq<Posting>>): int
  {
    if lists == [] then 0 else SumOverLists(id, lists[..|lists| - 1]) + SumFor(id, Last(lists))
  }

  lemma {:induction false} SumForFlatten(id: int, lists: seq<seq<Posting>>)
    ensures SumFor(id, Flatten(lists)) == SumOverLists(id, lists)
  {
    if lists != [] {
      SumForFlatten(id, lists[..|lists| - 1]);
      SumForAppend(id, Flatten(lists[..|lists| - 1]), Last(lists));
    }
  }

  /** An index from keys (q-grams, words) to their posting lists. */
  type Index = map<string, seq<Posting>>

  /** The list of `key`, or the empty list when it has none yet. */
  function Get(m: Index, key: string): seq<Posting>
  {
    if key in m then m[key] else []
  }

  /**
   * One more occurrence of `key` in document `id`: the count of the last
   * posting goes up when it is already for `id`, otherwise (id, 1) is
   * appended.
   */
  function AddOccurrence(m: Index, key: string, id: int): Index
  {
    var l := Get(m, key);
    if |l| > 0 && Last(l).id == id then m[key := l[..|l| - 1] + [Posting(id, Last(l).count + 1)]]
    else m[key := l + [Posting(id, 1)]]
  }

  /** All occurrences of the keys of document `id`, in order. */
  function AddAll(m: Index, keys: seq<string>, id: int): Index
  {
    if keys == [] then m else AddOccurrence(AddAll(m, keys[..|keys| - 1], id), Last(keys), id)
  }

  /** The index of `docs`, numbered 1, 2, ... in order. */
  function IndexOf(docs: seq<seq<string>>): Index
  {
    if docs == [] then map[] else AddAll(IndexOf(docs[..|docs| - 1]), Last(docs), |docs|)
  }

  /**
   * Reference definition of a list: a posting (n, c) for every document
   * n holding `key`, with c its number of occurrences there.
   */
  function ListFor(key: string, docs: seq<seq<string>>): (l: seq<Posting>)
    ensures StrictlyAscending(l)
    ensures forall i :: 0 <= i < |l| ==> 1 <= l[i].id <= |docs| && l[i].count > 0
  {
    if docs == [] then []
    else
      var c := Count(key, Last(docs));
      ListFor(key, docs[..|docs| - 1]) + if c > 0 then [Posting(|docs|, c)] else []
  }

  /** Every list of `m` ends before document `id`. */
  predicate Below(m: Index, id: int)
  {
    forall k :: k in m && m[k] != [] ==> Last(m[k]).id < id
  }

  lemma {:induction false} AddAllGet(m: Index, keys: seq<string>, id: int, g: string)
    requires Below(m, id)
    ensures Get(AddAll(m, keys, id), g)
         == Get(m, g) + if Count(g, keys) > 0 then [Posting(id, Count(g, keys))] else []
    ensures g in AddAll(m, keys, id) <==> g in m || g in keys
  {
    if keys != [] {
      var keys' := keys[..|keys| - 1];
      AddAllGet(m, keys', id, g);
      assert Get(m, g) != [] ==> Last(Get(m, g)).id < id;
      AddOccurrenceGet(AddAll(m, keys', id), Last(keys), id, g, Get(m, g), Count(g, keys'));
    }
  }

  /** One occurrence of `h` in document `id` seen from the list of `g`. */
  lemma AddOccurrenceGet(m: Index, h: string, id: int, g: string, base: seq<Posting>, c: nat)
    requires base == [] || Last(base).id < id
    requires Get(m, g) == base + if c > 0 then [Posting(id, c)] else []
    ensures var c' := c + if h == g then 1 else 0;
      Get(AddOccurrence(m, h, id), g) == base + if c' > 0 then [Posting(id, c')] else []
    ensures g in AddOccurrence(m, h, id) <==> g in m || g == h
  {
    if h == g && c > 0 {
      var l := Get(m, g);
      assert l[..|l| - 1] == base;
    }
  }

  lemma {:induction false} ListForBelow(docs: seq<seq<string>>, m: Index)
    requires forall k :: k in m ==> m[k] == ListFor(k, docs)
    ensures Below(m, |docs| + 1)
  {
  }

  /** The index built by the fold holds exactly the reference lists. */
  lemma {:induction false} IndexOfSpec(docs: seq<seq<string>>)
    ensures forall g :: Get(IndexOf(docs), g) == ListFor(g, docs)
    ensures forall g :: g in IndexOf(docs) <==> ListFor(g, docs) != []
  {
    if docs != [] {
      var init := docs[..|docs| - 1];
      IndexOfSpec(init);
      var m := IndexOf(init);
      assert forall k :: k in m ==> m[k] == ListFor(k, init) by {
        forall k | k in m
          ensures m[k] == ListFor(k, init)
        {
          assert Get(m, k) == ListFor(k, init);
        }
      }
      ListForBelow(init, m);
      forall g
        ensures Get(IndexOf(docs), g) == ListFor(g, docs)
        ensures g in IndexOf(docs) <==> ListFor(g, docs) != []
      {
        AddAllGet(m, Last(docs), |docs|, g);
      }
    }
  }

  /** A document holds `key` exactly when its id is on the list of `key`. */
  lemma {:induction false} ListForCount(key: string, docs: seq<seq<string>>, n: int)
    ensures SumFor(n, ListFor(key, docs)) == if 1 <= n <= |docs| then Count(key, docs[n - 1]) else 0
  {
    if docs != [] {
      var init := docs[..|docs| - 1];
      var c := Count(key, Last(docs));
      ListForCount(key, init, n);
      var tail := if c > 0 then [Posting(|docs|, c)] else [];
      SumForAppend(n, ListFor(key, init), tail);
      if c > 0 {
        assert tail[..0] == [];
      }
      if 1 <= n < |docs| {
        assert docs[n - 1] == init[n - 1];
      }
    }
  }

  /**
   * A list sorted by id with each id once is determined by its ids and
   * their counts: two such lists with the same ids and the same sum for
   * every id are equal.
   */
  lemma {:induction false} AscendingUnique(a: seq<Posting>, b: seq<Posting>)
    requires StrictlyAscending(a) && StrictlyAscending(b)
    requires Ids(a) == Ids(b)
    requires forall id :: SumFor(id, a) == SumFor(id, b)
    ensures a == b
    decreases |a| + |b|
  {
    if a == [] || b == [] {
      NonEmptyIds(a);
      NonEmptyIds(b);
    } else {
      var x, y := Last(a), Last(b);
      LastIsMax(a, y.id);
      LastIsMax(b, x.id);
      assert x.id == y.id;
      SumForAscending(x.id, a, |a| - 1);
      SumForAscending(x.id, b, |b| - 1);
      var a', b' := a[..|a| - 1], b[..|b| - 1];
      InitIds(a);
      InitIds(b);
      forall id
        ensures SumFor(id, a') == SumFor(id, b')
      {
        assert SumFor(id, a) == SumFor(id, a') + if x.id == id then x.count else 0;
        assert SumFor(id, b) == SumFor(id, b') + if y.id == id then y.count else 0;
      }
      AscendingUnique(a', b');
      assert a == a' + [x] && b == b' + [y];
    }
  }

  lemma NonEmptyIds(ps: seq<Posting>)
    ensures ps == [] <==> Ids(ps) == {}
  {
    if ps != [] {
      assert Last(ps).id in Ids(ps);
    }
  }

  /** In a list sorted by id, every id is at most the last one. */
  lemma LastIsMax(ps: seq<Posting>, id: int)
    requires StrictlyAscending(ps) && ps != [] && id in Ids(ps)
    ensures id <= Last(ps).id
  {
    var p :| p in ps && p.id == id;
    var k :| 0 <= k < |ps| && ps[k] == p;
  }

  /** Dropping the last posting of a list sorted by id drops exactly its id. */
  lemma InitIds(ps: seq<Posting>)
    requires StrictlyAscending(ps) && ps != []
    ensures Ids(ps[..|ps| - 1]) == Ids(ps) - {Last(ps).id}
    ensures StrictlyAscending(ps[..|ps| - 1])
  {
    var init := ps[..|ps| - 1];
    assert ps == init + [Last(ps)];
    IdsAppend(init, [Last(ps)]);
    assert Ids([Last(ps)]) == {Last(ps).id};
    forall p | p in init
      ensures p.id != Last(ps).id
    {
      var k :| 0 <= k < |init| && init[k] == p;
    }
  }

  /** Every id at most once, in any order. */
  predicate DistinctIds(ps: seq<Posting>)
  {
    forall i, j :: 0 <= i < j < |ps| ==> ps[i].id != ps[j].id
  }

  /** In a list that holds `id` once, in any order, its count is the sum for `id`. */
  lemma {:induction false} SumForDistinct(id: int, ps: seq<Posting>, k: nat)
    requires DistinctIds(ps) && k < |ps| && ps[k].id == id
    ensures SumFor(id, ps) == ps[k].count
  {
    var init := ps[..|ps| - 1];
    if k < |ps| - 1 {
      SumForDistinct(id, init, k);
    } else {
      forall p | p in init
        ensures p.id != id
      {
        var j :| 0 <= j < |init| && init[j] == p;
      }
      SumForAbsent(id, init);
    }
  }

  /** Inserting a posting with a new id into a list sorted by id keeps it sorted by id. */
  lemma {:induction false} InsertStrict(t: seq<Posting>, x: Posting)
    requires StrictlyAscending(t) && x.id !in Ids(t)
    ensures StrictlyAscending(Insert(t, x, PostingKey))
  {
    if t != [] && !KeyLe(PostingKey(Last(t)), PostingKey(x)) {
      var init := t[..|t| - 1];
      InitIds(t);
      InsertStrict(init, x);
      assert Insert(t, x, PostingKey) == Insert(init, x, PostingKey) + [Last(t)];
      forall p | p in init
        ensures p.id < Last(t).id
      {
        var j :| 0 <= j < |init| && init[j] == p;
      }
      InsertBelow(init, x, Last(t).id);
      StrictSnoc(Insert(init, x, PostingKey), Last(t));
    } else if t != [] {
      assert Last(t) in t;
    }
  }

  lemma StrictSnoc(r: seq<Posting>, y: Posting)
    requires StrictlyAscending(r) && forall p :: p in r ==> p.id < y.id
    ensures StrictlyAscending(r + [y])
  {
    forall i, j | 0 <= i < j < |r| + 1
      ensures (r + [y])[i].id < (r + [y])[j].id
    {
      if j == |r| {
        assert r[i] in r;
      }
    }
  }

  /** Inserting keeps every id below a bound that all ids were below. */
  lemma InsertBelow(t: seq<Posting>, x: Posting, bound: int)
    requires SortedBy(t, PostingKey) && x.id < bound
    requires forall p :: p in t ==> p.id < bound
    ensures forall p :: p in Insert(t, x, PostingKey) ==> p.id < bound
  {
    var r := Insert(t, x, PostingKey);
    forall p | p in r
      ensures p.id < bound
    {
      assert p in multiset(t) + multiset{x} by {
        assert p in multiset(r);
      }
    }
  }

  /** Sorting a list whose ids are distinct sorts it by id. */
  lemma {:induction false} SortStrict(ps: seq<Posting>)
    requires DistinctIds(ps)
    ensures StrictlyAscending(SortBy(ps, PostingKey))
  {
    if ps != [] {
      var init := ps[..|ps| - 1];
      SortStrict(init);
      SortIds(init);
      assert Last(ps).id !in Ids(init) by {
        forall p | p in init
          ensures p.id != Last(ps).id
        {
          var j :| 0 <= j < |init| && init[j] == p;
        }
      }
      InsertStrict(SortBy(init, PostingKey), Last(ps));
    }
  }

  function Own(id: int, p: Posting): int
  {
    if p.id == id then p.count else 0
  }

  lemma SumForTwo(id: int, a: Posting, b: Posting)
    ensures SumFor(id, [a, b]) == Own(id, a) + Own(id, b)
  {
    Take4(a, b, b, b);
    assert SumFor(id, [a]) == SumFor(id, []) + Own(id, a) == Own(id, a);
    assert SumFor(id, [a, b]) == SumFor(id, [a]) + Own(id, b);
  }

  lemma SumForThree(id: int, a: Posting, b: Posting, c: Posting)
    ensures SumFor(id, [a, b, c]) == Own(id, a) + Own(id, b) + Own(id, c)
  {
    Take4(a, b, c, c);
    SumForTwo(id, a, b);
    assert SumFor(id, [a, b, c]) == SumFor(id, [a, b]) + Own(id, c);
  }

  lemma ExampleIds(l1: seq<Posting>, l2: seq<Posting>, e: seq<Posting>)
    requires l1 == [Posting(1, 2), Posting(3, 1), Posting(5, 1)] && l2 == [Posting(2, 1), Posting(3, 2), Posting(9, 2)]
    requires e == [Posting(1, 2), Posting(2, 1), Posting(3, 3), Posting(5, 1), Posting(9, 2)]
    ensures Ids(l1 + l2) == Ids(e)
  {
    IdsAppend(l1, l2);
    IdsOfThree(l1, 1, 3, 5);
    IdsOfThree(l2, 2, 3, 9);
    IdsOfMerged(e);
  }

  lemma IdsOfThree(ps: seq<Posting>, x: int, y: int, z: int)
    requires |ps| == 3 && ps[0].id == x && ps[1].id == y && ps[2].id == z
    ensures Ids(ps) == {x, y, z}
  {
    assert ps == [ps[0], ps[1], ps[2]];
  }

  lemma IdsOfMerged(e: seq<Posting>)
    requires e == [Posting(1, 2), Posting(2, 1), Posting(3, 3), Posting(5, 1), Posting(9, 2)]
    ensures Ids(e) == {1, 2, 3, 5, 9}
  {
    IdsAppend(e[..3], e[3..]);
    assert e[..3] + e[3..] == e;
    IdsOfThree(e[..3], 1, 2, 3);
    assert Ids(e[3..]) == {5, 9} by {
      assert e[3..] == [Posting(5, 1), Posting(9, 2)];
    }
  }

  lemma ExampleSums(id: int, l1: seq<Posting>, l2: seq<Posting>, e: seq<Posting>)
    requires l1 == [Posting(1, 2), Posting(3, 1), Posting(5, 1)] && l2 == [Posting(2, 1), Posting(3, 2), Posting(9, 2)]
    requires e == [Posting(1, 2), Posting(2, 1), Posting(3, 3), Posting(5, 1), Posting(9, 2)]
    ensures SumFor(id, e) == SumFor(id, l1 + l2)
  {
    SumForAppend(id, l1, l2);
    SumForThree(id, l1[0], l1[1], l1[2]);
    SumForThree(id, l2[0], l2[1], l2[2]);
    assert e == [e[0], e[1], e[2]] + [e[3], e[4]];
    SumForAppend(id, [e[0], e[1], e[2]], [e[3], e[4]]);
    SumForThree(id, e[0], e[1], e[2]);
    SumForTwo(id, e[3], e[4]);
  }

  /** The first doctest of `merge_lists`: id 3 occurs in both lists and its counts add up. */
  lemma MergeExample()
    ensures Merged([[Posting(1, 2), Posting(3, 1), Posting(5, 1)], [Posting(2, 1), Posting(3, 2), Posting(9, 2)]])
         == [Posting(1, 2), Posting(2, 1), Posting(3, 3), Posting(5, 1), Posting(9, 2)]
  {
    var l1, l2 := [Posting(1, 2), Posting(3, 1), Posting(5, 1)], [Posting(2, 1), Posting(3, 2), Posting(9, 2)];
    var e := [Posting(1, 2), Posting(2, 1), Posting(3, 3), Posting(5, 1), Posting(9, 2)];
    var lists := [l1, l2];
    FlattenTwo(l1, l2);
    assert StrictlyAscending(e);
    MergedSpec(lists);
    ExampleIds(l1, l2, e);
    forall id
      ensures SumFor(id, e) == SumFor(id, Flatten(lists))
    {
      ExampleSums(id, l1, l2, e);
    }
    AscendingUnique(Merged(lists), e);
  }

  /** The second and third doctests of `merge_lists`: an empty list adds nothing. */
  lemma MergeEmptyExample()
    ensures Merged([[Posting(1, 2), Posting(3, 1), Posting(5, 1)], []]) == [Posting(1, 2), Posting(3, 1), Posting(5, 1)]
    ensures Merged([[], []]) == []
  {
    var l1: seq<Posting> := [Posting(1, 2), Posting(3, 1), Posting(5, 1)];
    var none: seq<Posting> := [];
    var lists := [l1, none];
    FlattenTwo(l1, none);
    assert l1 + none == l1;
    assert Flatten(lists) == l1;
    assert StrictlyAscending(l1);
    MergedSpec(lists);
    AscendingUnique(Merged(lists), l1);
    FlattenTwo(none, none);
  }
}
