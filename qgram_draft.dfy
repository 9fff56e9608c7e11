/**
 * The first draft of the q-gram index for fuzzy prefix search: one
 * entity per line, one name per entity, and inverted lists that get one
 * posting (entity id, 1) per q-gram occurrence instead of a count. Its
 * merge collects the counts in a dictionary, its search takes every list
 * of a q-gram of the prefix once, and its ranking is two stable sorts.
 */
module QGramDraft {
  import opened Seqs
  import opened Outcomes
  import opened Strings
  import opened Sorting
  import opened Postings
  import opened PrefixEditDistance
  import opened QGramFilter
  import opened QGramSearch
  import opened QGramIndex

  /** `inverted_lists[qgram].append((entity_id, 1))`, creating the list when the q-gram is new. */
  function AppendOne(m: Index, g: string, id: int): Index
  {
    m[g := Get(m, g) + [Posting(id, 1)]]
  }

  /** Every q-gram occurrence of entity `id`, in order. */
  function AppendAll(m: Index, grams: seq<string>, id: int): Index
  {
    if grams == [] then m else AppendOne(AppendAll(m, grams[..|grams| - 1], id), Last(grams), id)
  }

  /** The lists of the draft built over `docs`, the q-grams of entities 1, 2, ... */
  function AppendIndex(docs: seq<seq<string>>): Index
  {
    if docs == [] then map[] else AppendAll(AppendIndex(docs[..|docs| - 1]), Last(docs), |docs|)
  }

  /** `c` postings (id, 1). */
  function Ones(id: int, c: nat): (r: seq<Posting>)
    ensures |r| == c && forall i :: 0 <= i < c ==> r[i] == Posting(id, 1)
  {
    seq(c, _ => Posting(id, 1))
  }

  /**
   * Reference definition of a draft list: a posting (n, 1) for every
   * occurrence of `g` in document n, documents in order.
   */
  function OnesFor(g: string, docs: seq<seq<string>>): seq<Posting>
  {
    if docs == [] then [] else OnesFor(g, docs[..|docs| - 1]) + Ones(|docs|, Count(g, Last(docs)))
  }

  lemma AppendOneGet(m: Index, h: string, id: int, g: string, base: seq<Posting>, c: nat)
    requires Get(m, g) == base + Ones(id, c)
    ensures Get(AppendOne(m, h, id), g) == base + Ones(id, c + if h == g then 1 else 0)
    ensures g in AppendOne(m, h, id) <==> g in m || g == h
  {
    if h == g {
      assert Ones(id, c + 1) == Ones(id, c) + [Posting(id, 1)];
    }
  }

  lemma {:induction false} AppendAllGet(m: Index, grams: seq<string>, id: int, g: string)
    ensures Get(AppendAll(m, grams, id), g) == Get(m, g) + Ones(id, Count(g, grams))
    ensures g in AppendAll(m, grams, id) <==> g in m || g in grams
  {
    if grams != [] {
      var init := grams[..|grams| - 1];
      var prev := AppendAll(m, init, id);
      AppendAllGet(m, init, id, g);
      var c := Count(g, init);
      AppendOneGet(prev, Last(grams), id, g, Get(m, g), c);
      assert grams == init + [Last(grams)];
      assert g in grams <==> g in init || g == Last(grams);
    }
  }

  /** The draft's lists are the reference lists, and a q-gram has a list when some document holds it. */
  lemma {:induction false} AppendIndexSpec(docs: seq<seq<string>>, g: string)
    ensures Get(AppendIndex(docs), g) == OnesFor(g, docs)
    ensures g in AppendIndex(docs) <==> g in Flatten(docs)
  {
    if docs != [] {
      var init := docs[..|docs| - 1];
      AppendIndexSpec(init, g);
      AppendAllGet(AppendIndex(init), Last(docs), |docs|, g);
    }
  }

  lemma OnesSums(id: int, c: nat, n: int)
    ensures SumFor(n, Ones(id, c)) == if n == id then c else 0
    decreases c
  {
    if c > 0 {
      assert Ones(id, c)[..c - 1] == Ones(id, c - 1);
      OnesSums(id, c - 1, n);
    }
  }

  lemma OnesIds(id: int, c: nat)
    ensures Ids(Ones(id, c)) == if c > 0 then {id} else {}
  {
    if c > 0 {
      assert Ones(id, c)[0] in Ones(id, c);
    }
  }

  /**
   * A draft list holds document n's id once per occurrence of the q-gram
   * there: the sum for n is its number of occurrences.
   */
  lemma {:induction false} OnesForSums(g: string, docs: seq<seq<string>>, n: int)
    ensures SumFor(n, OnesFor(g, docs)) == if 1 <= n <= |docs| then Count(g, docs[n - 1]) else 0
  {
    if docs != [] {
      var init := docs[..|docs| - 1];
      OnesForSums(g, init, n);
      SumForAppend(n, OnesFor(g, init), Ones(|docs|, Count(g, Last(docs))));
      OnesSums(|docs|, Count(g, Last(docs)), n);
      if 1 <= n < |docs| {
        assert docs[n - 1] == init[n - 1];
      }
    }
  }

  /** A draft list has the ids of the counting list of the same documents. */
  lemma {:induction false} OnesForIds(g: string, docs: seq<seq<string>>)
    ensures Ids(OnesFor(g, docs)) == Ids(ListFor(g, docs))
  {
    if docs != [] {
      var init := docs[..|docs| - 1];
      var c := Count(g, Last(docs));
      OnesForIds(g, init);
      IdsAppend(OnesFor(g, init), Ones(|docs|, c));
      OnesIds(|docs|, c);
      var tail := if c > 0 then [Posting(|docs|, c)] else [];
      IdsAppend(ListFor(g, init), tail);
      assert c > 0 ==> Ids(tail) == {|docs|} by {
        if c > 0 { assert tail[0] in tail; }
      }
    }
  }

  /** Every id in a draft list is the number of one of the documents. */
  lemma {:induction false} OnesForRange(g: string, docs: seq<seq<string>>)
    ensures forall i :: 0 <= i < |OnesFor(g, docs)| ==> 1 <= OnesFor(g, docs)[i].id <= |docs|
  {
    if docs != [] {
      var init := docs[..|docs| - 1];
      OnesForRange(g, init);
      var a, b := OnesFor(g, init), Ones(|docs|, Count(g, Last(docs)));
      var l: seq<Posting> := a + b;
      assert l == OnesFor(g, docs);
      assert forall i :: 0 <= i < |a| ==> l[i] == a[i];
    }
  }

  /** The ids of a draft list never go down. */
  lemma {:induction false} OnesForAscending(g: string, docs: seq<seq<string>>)
    ensures AscendingIds(OnesFor(g, docs))
  {
    if docs != [] {
      var init := docs[..|docs| - 1];
      OnesForAscending(g, init);
      OnesForRange(g, init);
      var a, b := OnesFor(g, init), Ones(|docs|, Count(g, Last(docs)));
      var l: seq<Posting> := a + b;
      assert l == OnesFor(g, docs);
      forall i, j | 0 <= i < j < |l|
        ensures l[i].id <= l[j].id
      {
        if j < |a| {
          assert l[i] == a[i] && l[j] == a[j];
        } else if i < |a| {
          assert l[i] == a[i];
        }
      }
    }
  }

  /**
   * Summing up a draft list gives the list the mature index keeps: one
   * posting per document holding the q-gram, with its number of
   * occurrences.
   */
  lemma OnesForFold(g: string, docs: seq<seq<string>>)
    ensures Fold(OnesFor(g, docs)) == ListFor(g, docs)
  {
    var l := OnesFor(g, docs);
    OnesForAscending(g, docs);
    FoldAscending(l);
    FoldIds(l);
    OnesForIds(g, docs);
    forall n
      ensures SumFor(n, Fold(l)) == SumFor(n, ListFor(g, docs))
    {
      FoldSums(n, l);
      OnesForSums(g, docs, n);
      ListForCount(g, docs, n);
    }
    AscendingUnique(Fold(l), ListFor(g, docs));
  }

  /** What `build_from_file` reads from one entity line. */
  datatype LineRead =
    | BadFields                         // fewer than three fields: ValueError before anything is stored
    | BadScore(name: string)            // the score is not an integer: ValueError after the name is stored
    | Entity(name: string, score: int)

  /**
   * `line.strip().split("\t", 2)` unpacked into name, score and
   * description (splitting at most twice gives three fields exactly when
   * splitting at every tab gives at least three, and the same first two),
   * then the normalised name and `int(score)`.
   */
  function ReadLine(line: string): LineRead
  {
    var f := Split(Strip(line), '\t');
    if |f| < 3 then BadFields
    else
      match ParseInt(f[1])
      case Fail(_) => BadScore(Normalize(f[0]))
      case Ok(v) => Entity(Normalize(f[0]), v)
  }

  /** What is read from each entity line of `body`, in order. */
  function Reads(body: seq<string>): (rs: seq<LineRead>)
    ensures |rs| == |body|
  {
    seq(|body|, i requires 0 <= i < |body| => ReadLine(body[i]))
  }

  predicate IsEntity(r: LineRead)
  {
    r.Entity?
  }

  /** The number of leading lines read as entities: where reading stops. */
  function GoodEntities(rs: seq<LineRead>): (k: nat)
    ensures k <= |rs|
    ensures forall i :: 0 <= i < k ==> rs[i].Entity?
    ensures k < |rs| ==> !rs[k].Entity?
  {
    Leading(rs, IsEntity)
  }

  /** Reading goes on past a line read as an entity. */
  lemma GoodNext(rs: seq<LineRead>, i: nat)
    requires i <= GoodEntities(rs) && i < |rs| && rs[i].Entity?
    ensures i < GoodEntities(rs)
  {
  }

  /** Reading stops at the first line not read as an entity. */
  lemma GoodStop(rs: seq<LineRead>, i: nat)
    requires i <= GoodEntities(rs) && i < |rs| && !rs[i].Entity?
    ensures i == GoodEntities(rs)
  {
  }

  /**
   * What reading the lines `rs` leaves behind: the names and scores of the
   * leading entity lines, plus the name of a first line whose score is not
   * an integer, and ValueError when some line stopped the reading.
   */
  predicate Loaded(rs: seq<LineRead>, words: seq<string>, scores: seq<int>, error: Option<Error>)
  {
    var k := GoodEntities(rs);
    && scores == Scores(rs[..k])
    && words == Names(rs[..k]) + (if k < |rs| && rs[k].BadScore? then [rs[k].name] else [])
    && error == (if k < |rs| then Some(ValueError) else None)
  }

  /**
   * What line `i` leaves behind: reading goes on with one more entity, or
   * it stopped there and the load is over.
   */
  predicate ReadOn(rs: seq<LineRead>, i: nat, words: seq<string>, scores: seq<int>, error: Option<Error>)
    requires i < |rs|
  {
    if error == None then
      i < GoodEntities(rs) && words == Names(rs[..i + 1]) && scores == Scores(rs[..i + 1])
    else
      Loaded(rs, words, scores, error)
  }

  /** Line `i` read on top of the leading entities before it. */
  lemma ReadOnAfter(rs: seq<LineRead>, i: nat, w0: seq<string>, s0: seq<int>,
                    words: seq<string>, scores: seq<int>, error: Option<Error>)
    requires i < |rs| && i <= GoodEntities(rs)
    requires w0 == Names(rs[..i]) && s0 == Scores(rs[..i])
    requires match rs[i]
             case BadFields => error == Some(ValueError) && words == w0 && scores == s0
             case BadScore(n) => error == Some(ValueError) && words == w0 + [n] && scores == s0
             case Entity(n, v) => error == None && words == w0 + [n] && scores == s0 + [v]
    ensures ReadOn(rs, i, words, scores, error)
  {
    if error.Some? {
      GoodStop(rs, i);
    } else {
      GoodNext(rs, i);
      EntitiesStep(rs, i);
    }
  }

  /** The names of entity lines read as entities. */
  function Names(rs: seq<LineRead>): (r: seq<string>)
    requires forall i :: 0 <= i < |rs| ==> rs[i].Entity?
    ensures |r| == |rs| && forall i :: 0 <= i < |rs| ==> r[i] == rs[i].name
  {
    seq(|rs|, i requires 0 <= i < |rs| => rs[i].name)
  }

  /** The scores of entity lines read as entities. */
  function Scores(rs: seq<LineRead>): (r: seq<int>)
    requires forall i :: 0 <= i < |rs| ==> rs[i].Entity?
    ensures |r| == |rs| && forall i :: 0 <= i < |rs| ==> r[i] == rs[i].score
  {
    seq(|rs|, i requires 0 <= i < |rs| => rs[i].score)
  }

  /** Line `i` comes after entities only, whose names and scores are `words` and `scores`. */
  predicate ReadSoFar(rs: seq<LineRead>, i: nat, words: seq<string>, scores: seq<int>)
  {
    i < |rs| && i <= GoodEntities(rs) && words == Names(rs[..i]) && scores == Scores(rs[..i])
  }

  /** The names and scores read before line `i` are `i` each. */
  lemma PrefixLengths(rs: seq<LineRead>, i: nat, words: seq<string>, scores: seq<int>)
    requires i <= GoodEntities(rs) && words == Names(rs[..i]) && scores == Scores(rs[..i])
    ensures |words| == i && |scores| == i
  {
  }

  lemma EntitiesStep(rs: seq<LineRead>, i: nat)
    requires i < |rs| && rs[i].Entity? && forall j :: 0 <= j < i ==> rs[j].Entity?
    ensures Names(rs[..i + 1]) == Names(rs[..i]) + [rs[i].name]
    ensures Scores(rs[..i + 1]) == Scores(rs[..i]) + [rs[i].score]
  {
  }

  lemma NameDocsStep(words: seq<string>, w: string, q: nat)
    requires q >= 1
    ensures NameDocs(words + [w], q) == NameDocs(words, q) + [PaddedGrams(w, q)]
  {
    assert (words + [w])[..|words|] == words;
  }

  lemma DocsStep(docs: seq<seq<string>>, d: seq<string>)
    ensures AppendIndex(docs + [d]) == AppendAll(AppendIndex(docs), d, |docs| + 1)
    ensures Flatten(docs + [d]) == Flatten(docs) + d
  {
    assert (docs + [d])[..|docs|] == docs;
  }

  lemma GramStep(m: Index, flat: seq<string>, grams: seq<string>, j: nat, id: int)
    requires j < |grams|
    ensures AppendAll(m, grams[..j + 1], id) == AppendOne(AppendAll(m, grams[..j], id), grams[j], id)
    ensures var f := FirstSeen(flat + grams[..j]);
            FirstSeen(flat + grams[..j + 1]) == if grams[j] in f then f else f + [grams[j]]
  {
    assert grams[..j + 1][..j] == grams[..j];
    assert flat + grams[..j + 1] == (flat + grams[..j]) + [grams[j]];
  }

  lemma FirstSeenStep(flat: seq<string>, g: string)
    ensures FirstSeen(flat + [g]) == if g in flat then FirstSeen(flat) else FirstSeen(flat) + [g]
  {
    assert (flat + [g])[..|flat|] == flat;
    FirstSeenElements(flat);
  }

  /**
   * The dictionary `li` of `merge_lists` with its keys in insertion order,
   * after the postings `seen`: each id of `seen` is a key once, holding the
   * total count of the id.
   */
  ghost predicate Tallied(li: map<int, int>, keys: seq<int>, seen: seq<Posting>)
  {
    && Distinct(keys)
    && (forall i :: 0 <= i < |keys| ==> keys[i] in li)
    && (forall x :: x in li ==> x in keys)
    && (forall x :: x in keys <==> x in Ids(seen))
    && (forall x :: x in li ==> li[x] == SumFor(x, seen))
  }

  /** One posting more: its count is added to its id's entry, which is created when the id is new. */
  lemma TallyStep(li: map<int, int>, keys: seq<int>, seen: seq<Posting>, p: Posting)
    requires Tallied(li, keys, seen)
    ensures p.id in li ==> Tallied(li[p.id := li[p.id] + p.count], keys, seen + [p])
    ensures p.id !in li ==> Tallied(li[p.id := p.count], keys + [p.id], seen + [p])
  {
    IdsAppend(seen, [p]);
    assert Ids([p]) == {p.id};
    assert (seen + [p])[..|seen|] == seen;
    if p.id !in li {
      SumForAbsent(p.id, seen);
    }
  }

  /** `li.items()`: the (id, count) pairs in key order. */
  function Items(li: map<int, int>, keys: seq<int>): (r: seq<Posting>)
    requires forall i :: 0 <= i < |keys| ==> keys[i] in li
    ensures |r| == |keys| && forall i :: 0 <= i < |keys| ==> r[i] == Posting(keys[i], li[keys[i]])
  {
    seq(|keys|, i requires 0 <= i < |keys| => Posting(keys[i], li[keys[i]]))
  }

  /** Sorting the items of the dictionary of all postings gives the merged list. */
  lemma TallyMerged(li: map<int, int>, keys: seq<int>, lists: seq<seq<Posting>>)
    requires Tallied(li, keys, Flatten(lists))
    ensures SortBy(Items(li, keys), PostingKey) == Merged(lists)
  {
    var flat := Flatten(lists);
    var items := Items(li, keys);
    var r := SortBy(items, PostingKey);
    SortStrict(items);
    SortIds(items);
    assert Ids(items) == Ids(flat) by {
      forall x
        ensures x in Ids(items) <==> x in keys
      {
        if x in keys {
          var k :| 0 <= k < |keys| && keys[k] == x;
          assert items[k].id == x;
        }
      }
    }
    forall id
      ensures SumFor(id, r) == SumFor(id, flat)
    {
      SortSums(id, items);
      if id in li {
        var k :| 0 <= k < |keys| && keys[k] == id;
        SumForDistinct(id, items, k);
      } else {
        SumForAbsent(id, items);
        SumForAbsent(id, flat);
      }
    }
    MergedSpec(lists);
    AscendingUnique(r, Merged(lists));
  }

  lemma FlattenPrefixStep<T>(ss: seq<seq<T>>, i: nat)
    requires i < |ss|
    ensures Flatten(ss[..i + 1]) == Flatten(ss[..i]) + ss[i]
  {
    assert ss[..i + 1][..i] == ss[..i];
  }

  /** Every key of `order` has a list in `m`. */
  predicate DraftKeysIn(m: Index, order: seq<string>)
  {
    forall i :: 0 <= i < |order| ==> order[i] in m
  }

  /**
   * The loop over `inverted_lists.items()` of `find_matches`: the lists of
   * the keys, in key order `order`, that are q-grams `gx` of the prefix.
   */
  function DraftLists(m: Index, order: seq<string>, gx: seq<string>): seq<seq<Posting>>
    requires DraftKeysIn(m, order)
  {
    if order == [] then []
    else DraftLists(m, order[..|order| - 1], gx) + if Last(order) in gx then [m[Last(order)]] else []
  }

  /** The occurrences in `gy` of the keys of `order` that are q-grams `gx` of the prefix. */
  function SumCount(order: seq<string>, gx: seq<string>, gy: seq<string>): nat
  {
    if order == [] then 0
    else SumCount(order[..|order| - 1], gx, gy) + if Last(order) in gx then Count(Last(order), gy) else 0
  }

  /** The draft lists of the keys of `order` hold, for entity n, the occurrences those keys have in it. */
  lemma {:induction false} DraftListsSum(docs: seq<seq<string>>, order: seq<string>, gx: seq<string>, n: int)
    requires forall i :: 0 <= i < |order| ==> order[i] in AppendIndex(docs)
    requires 1 <= n <= |docs|
    ensures SumFor(n, Flatten(DraftLists(AppendIndex(docs), order, gx))) == SumCount(order, gx, docs[n - 1])
  {
    if order != [] {
      var m := AppendIndex(docs);
      var init := order[..|order| - 1];
      var g := Last(order);
      DraftListsSum(docs, init, gx, n);
      var tail := if g in gx then [m[g]] else [];
      FlattenAppend(DraftLists(m, init, gx), tail);
      SumForAppend(n, Flatten(DraftLists(m, init, gx)), Flatten(tail));
      if g in gx {
        assert Flatten(tail) == m[g] by {
          assert tail[..0] == [];
        }
        AppendIndexSpec(docs, g);
        OnesForSums(g, docs, n);
      }
    }
  }

  /** Every id of the draft lists of the keys of `order` is an entity 1..|docs|. */
  lemma {:induction false} DraftListsIds(docs: seq<seq<string>>, order: seq<string>, gx: seq<string>)
    requires forall i :: 0 <= i < |order| ==> order[i] in AppendIndex(docs)
    ensures IdsIn(Flatten(DraftLists(AppendIndex(docs), order, gx)), |docs|)
  {
    if order != [] {
      var m := AppendIndex(docs);
      var init := order[..|order| - 1];
      var g := Last(order);
      DraftListsIds(docs, init, gx);
      var tail := if g in gx then [m[g]] else [];
      FlattenAppend(DraftLists(m, init, gx), tail);
      if g in gx {
        assert Flatten(tail) == m[g] by {
          assert tail[..0] == [];
        }
        AppendIndexSpec(docs, g);
        OnesForRange(g, docs);
      }
      IdsInAppend(Flatten(DraftLists(m, init, gx)), Flatten(tail), |docs|);
    }
  }

  lemma {:induction false} SumCountNone(order: seq<string>, gx: seq<string>)
    ensures SumCount(order, gx, []) == 0
  {
    if order != [] {
      SumCountNone(order[..|order| - 1], gx);
    }
  }

  lemma {:induction false} SumCountAppend(order: seq<string>, gx: seq<string>, gy: seq<string>, y: string)
    ensures SumCount(order, gx, gy + [y]) == SumCount(order, gx, gy) + if y in gx then Count(y, order) else 0
  {
    if order != [] {
      var init := order[..|order| - 1];
      SumCountAppend(init, gx, gy, y);
      CountAppend(Last(order), gy, [y]);
      CountAppend(y, init, [Last(order)]);
      assert order == init + [Last(order)];
      assert [y][..0] == [] && [Last(order)][..0] == [];
    }
  }

  /**
   * Summing the occurrences over distinct keys that cover `gy` counts each
   * position of `gy` whose q-gram is one of the prefix's once.
   */
  lemma {:induction false} SumCountShared(order: seq<string>, gx: seq<string>, gy: seq<string>)
    requires Distinct(order) && forall j :: 0 <= j < |gy| ==> gy[j] in order
    ensures SumCount(order, gx, gy) == Shared(gy, gx)
  {
    if gy == [] {
      SumCountNone(order, gx);
    } else {
      var init := gy[..|gy| - 1];
      SumCountShared(order, gx, init);
      SumCountAppend(order, gx, init, Last(gy));
      assert gy == init + [Last(gy)];
      if Last(gy) in gx {
        CountDistinct(Last(gy), order);
      }
    }
  }

  /** Every key of the draft's order has a list. */
  lemma DraftKeys(docs: seq<seq<string>>)
    ensures forall i :: 0 <= i < |FirstSeen(Flatten(docs))| ==> FirstSeen(Flatten(docs))[i] in AppendIndex(docs)
  {
    FirstSeenElements(Flatten(docs));
    forall i | 0 <= i < |FirstSeen(Flatten(docs))|
      ensures FirstSeen(Flatten(docs))[i] in AppendIndex(docs)
    {
      AppendIndexSpec(docs, FirstSeen(Flatten(docs))[i]);
    }
  }

  /** The merged list of the draft built over `docs` for a prefix with q-grams `gx`. */
  function DraftMerged(docs: seq<seq<string>>, gx: seq<string>): seq<Posting>
  {
    DraftKeys(docs);
    Merged(DraftLists(AppendIndex(docs), FirstSeen(Flatten(docs)), gx))
  }

  /**
   * The merged count of entity n is the number of q-grams of its name that
   * are q-grams of the prefix, and every merged id is an entity.
   */
  lemma DraftMergedCount(docs: seq<seq<string>>, gx: seq<string>, n: int)
    requires 1 <= n <= |docs|
    ensures SumFor(n, DraftMerged(docs, gx)) == Shared(docs[n - 1], gx)
  {
    var order := FirstSeen(Flatten(docs));
    DraftKeys(docs);
    var lists := DraftLists(AppendIndex(docs), order, gx);
    MergedSpec(lists);
    DraftListsSum(docs, order, gx, n);
    FirstSeenElements(Flatten(docs));
    forall y | y in docs[n - 1]
      ensures y in order
    {
      FlattenMember(docs, n - 1, y);
    }
    SumCountShared(order, gx, docs[n - 1]);
  }

  lemma DraftMergedIds(docs: seq<seq<string>>, gx: seq<string>)
    ensures StrictlyAscending(DraftMerged(docs, gx))
    ensures IdsIn(DraftMerged(docs, gx), |docs|)
  {
    var order := FirstSeen(Flatten(docs));
    DraftKeys(docs);
    var lists := DraftLists(AppendIndex(docs), order, gx);
    MergedSpec(lists);
    DraftListsIds(docs, order, gx);
    MergedIdsIn(lists, |docs|);
  }

  /** Merging keeps the ids of the lists, so their range too. */
  lemma MergedIdsIn(lists: seq<seq<Posting>>, n: int)
    requires IdsIn(Flatten(lists), n)
    ensures IdsIn(Merged(lists), n)
  {
    var merged, flat := Merged(lists), Flatten(lists);
    MergedSpec(lists);
    forall i | 0 <= i < |merged|
      ensures 1 <= merged[i].id <= n
    {
      assert merged[i].id in Ids(merged);
      var p :| p in flat && p.id == merged[i].id;
      var j :| 0 <= j < |flat| && flat[j] == p;
    }
  }

  /** A result of the draft's `find_matches`: (entity id, PED, score). */
  datatype Found = Found(id: int, ped: nat, score: int)

  /**
   * The verification loop: a merged posting whose count reaches the
   * threshold has its name's PED computed, and is reported with the
   * entity's score when the PED is at most delta.
   */
  function Verified(ps: seq<Posting>, prefix: string, threshold: int, delta: int,
                    words: seq<string>, scores: seq<int>): seq<Found>
    requires IdsIn(ps, |scores|) && |scores| <= |words|
  {
    if ps == [] then []
    else
      var p := Last(ps);
      var rest := Verified(ps[..|ps| - 1], prefix, threshold, delta, words, scores);
      if p.count >= threshold && Ped(prefix, words[p.id - 1]) <= delta
      then rest + [Found(p.id, Ped(prefix, words[p.id - 1]), scores[p.id - 1])]
      else rest
  }

  /** Every reported triple comes from a posting that passed both checks. */
  lemma {:induction false} VerifiedSound(ps: seq<Posting>, prefix: string, threshold: int, delta: int,
                                         words: seq<string>, scores: seq<int>, f: Found) returns (i: nat)
    requires IdsIn(ps, |scores|) && |scores| <= |words|
    requires f in Verified(ps, prefix, threshold, delta, words, scores)
    ensures i < |ps| && ps[i].id == f.id && ps[i].count >= threshold
    ensures f.ped == Ped(prefix, words[f.id - 1]) <= delta && f.score == scores[f.id - 1]
  {
    var init := ps[..|ps| - 1];
    if f in Verified(init, prefix, threshold, delta, words, scores) {
      i := VerifiedSound(init, prefix, threshold, delta, words, scores, f);
      assert ps[i] == init[i];
    } else {
      i := |ps| - 1;
    }
  }

  /** Every posting that passes both checks is reported. */
  lemma {:induction false} VerifiedComplete(ps: seq<Posting>, prefix: string, threshold: int, delta: int,
                                            words: seq<string>, scores: seq<int>, i: nat)
    requires IdsIn(ps, |scores|) && |scores| <= |words| && i < |ps|
    requires ps[i].count >= threshold && Ped(prefix, words[ps[i].id - 1]) <= delta
    ensures Found(ps[i].id, Ped(prefix, words[ps[i].id - 1]), scores[ps[i].id - 1])
            in Verified(ps, prefix, threshold, delta, words, scores)
  {
    var init := ps[..|ps| - 1];
    if i < |init| {
      assert init[i] == ps[i];
      VerifiedComplete(init, prefix, threshold, delta, words, scores, i);
    }
  }

  /**
   * What the draft's `find_matches` returns for entities with names
   * `words` (of which the first |scores| are indexed) and scores `scores`.
   */
  function DraftSearch(words: seq<string>, scores: seq<int>, q: nat, prefix: string, delta: int): seq<Found>
    requires q >= 1 && |scores| <= |words|
  {
    var docs := NameDocs(words[..|scores|], q);
    DraftMergedIds(docs, PaddedGrams(prefix, q));
    Verified(DraftMerged(docs, PaddedGrams(prefix, q)), prefix, Threshold(prefix, q, delta), delta, words, scores)
  }

  /**
   * Every entity found is within prefix edit distance delta of the
   * prefix, is reported with its PED and score, and its document in the
   * index (the padded q-grams of its name, by NameDocsAt) shares at least
   * |prefix| - q*delta padded q-grams with the prefix.
   */
  lemma DraftSearchSound(words: seq<string>, scores: seq<int>, q: nat, prefix: string, delta: int, f: Found)
    requires q >= 1 && |scores| <= |words|
    requires f in DraftSearch(words, scores, q, prefix, delta)
    ensures 1 <= f.id <= |scores|
    ensures f.ped == Ped(prefix, words[f.id - 1]) <= delta && f.score == scores[f.id - 1]
    ensures Shared(NameDocs(words[..|scores|], q)[f.id - 1], PaddedGrams(prefix, q)) >= Threshold(prefix, q, delta)
  {
    DraftMergedIds(NameDocs(words[..|scores|], q), PaddedGrams(prefix, q));
    MergedSound(NameDocs(words[..|scores|], q), PaddedGrams(prefix, q), prefix, Threshold(prefix, q, delta), delta, words, scores, f);
  }

  /** A triple verified from the merged lists names a document sharing at least `t` q-grams. */
  lemma MergedSound(docs: seq<seq<string>>, gx: seq<string>, prefix: string, t: int, delta: int,
                    words: seq<string>, scores: seq<int>, f: Found)
    requires |docs| == |scores| <= |words|
    requires IdsIn(DraftMerged(docs, gx), |scores|) && StrictlyAscending(DraftMerged(docs, gx))
    requires f in Verified(DraftMerged(docs, gx), prefix, t, delta, words, scores)
    ensures 1 <= f.id <= |scores|
    ensures f.ped == Ped(prefix, words[f.id - 1]) <= delta && f.score == scores[f.id - 1]
    ensures Shared(docs[f.id - 1], gx) >= t
  {
    var merged := DraftMerged(docs, gx);
    var i := VerifiedSound(merged, prefix, t, delta, words, scores, f);
    SumForAscending(f.id, merged, i);
    DraftMergedCount(docs, gx, f.id);
  }

  /**
   * When |prefix| > q*delta, every entity within prefix edit distance
   * delta of the prefix is found.
   */
  lemma DraftSearchComplete(words: seq<string>, scores: seq<int>, q: nat, prefix: string, delta: int, n: int)
    requires q >= 1 && |scores| <= |words|
    requires Threshold(prefix, q, delta) >= 1
    requires 1 <= n <= |scores| && Ped(prefix, words[n - 1]) <= delta
    ensures Found(n, Ped(prefix, words[n - 1]), scores[n - 1]) in DraftSearch(words, scores, q, prefix, delta)
  {
    DraftMergedIds(NameDocs(words[..|scores|], q), PaddedGrams(prefix, q));
    DocShares(words, |scores|, q, prefix, delta, n);
    MergedComplete(NameDocs(words[..|scores|], q), PaddedGrams(prefix, q), prefix, Threshold(prefix, q, delta), delta, words, scores, n);
  }

  /** By the q-gram count filter, a name within PED delta shares at least |prefix| - q*delta q-grams. */
  lemma DocShares(words: seq<string>, m: nat, q: nat, prefix: string, delta: int, n: int)
    requires q >= 1 && 1 <= n <= m <= |words| && Ped(prefix, words[n - 1]) <= delta
    ensures Shared(NameDocs(words[..m], q)[n - 1], PaddedGrams(prefix, q)) >= Threshold(prefix, q, delta)
  {
    NameDocsAt(words[..m], q, n - 1);
    assert words[..m][n - 1] == words[n - 1];
    FilterCount(prefix, words[n - 1], q);
    MulMonotone(q, Ped(prefix, words[n - 1]), delta);
  }

  /** A name whose document shares at least `t` >= 1 q-grams and whose PED is within delta is verified. */
  lemma MergedComplete(docs: seq<seq<string>>, gx: seq<string>, prefix: string, t: int, delta: int,
                       words: seq<string>, scores: seq<int>, n: int)
    requires |docs| == |scores| <= |words| && 1 <= n <= |scores|
    requires IdsIn(DraftMerged(docs, gx), |scores|) && StrictlyAscending(DraftMerged(docs, gx))
    requires Shared(docs[n - 1], gx) >= t >= 1 && Ped(prefix, words[n - 1]) <= delta
    ensures Found(n, Ped(prefix, words[n - 1]), scores[n - 1]) in Verified(DraftMerged(docs, gx), prefix, t, delta, words, scores)
  {
    var merged := DraftMerged(docs, gx);
    DraftMergedCount(docs, gx, n);
    var i := MergedHas(merged, n, t);
    VerifiedComplete(merged, prefix, t, delta, words, scores, i);
  }

  /** An id whose sum reaches a positive bound has a posting with that count. */
  lemma MergedHas(merged: seq<Posting>, n: int, t: int) returns (i: nat)
    requires StrictlyAscending(merged) && SumFor(n, merged) >= t >= 1
    ensures i < |merged| && merged[i].id == n && merged[i].count >= t
  {
    if n !in Ids(merged) {
      SumForAbsent(n, merged);
    }
    var p :| p in merged && p.id == n;
    i :| 0 <= i < |merged| && merged[i] == p;
    SumForAscending(n, merged, i);
  }

  /**
   * When |prefix| <= q*delta the count check no longer filters, but an
   * entity that shares no padded q-gram with the prefix never reaches it:
   * "cb" is within prefix edit distance 1 of "ab" and is not found.
   */
  lemma DraftSearchMisses()
    ensures Ped("ab", "cb") <= 1
    ensures DraftSearch(["cb"], [0], 3, "ab", 1) == []
  {
    PedCbAb();
    NoListForAb();
  }

  /** No list of the index of "cb" is fetched for the q-grams of "ab". */
  lemma NoListForAb()
    ensures DraftSearch(["cb"], [0], 3, "ab", 1) == []
  {
    var docs := NameDocs(["cb"], 3);
    var gx := PaddedGrams("ab", 3);
    assert docs == [PaddedGrams("cb", 3)];
    assert Flatten(docs) == PaddedGrams("cb", 3) by {
      assert docs[..0] == [];
    }
    NoSharedGram();
    var order := FirstSeen(Flatten(docs));
    FirstSeenElements(Flatten(docs));
    DraftKeys(docs);
    DraftListsNone(AppendIndex(docs), order, gx);
  }

  /** No key that is a q-gram of the prefix, no list. */
  lemma {:induction false} DraftListsNone(m: Index, order: seq<string>, gx: seq<string>)
    requires forall i :: 0 <= i < |order| ==> order[i] in m
    requires forall i :: 0 <= i < |order| ==> order[i] !in gx
    ensures DraftLists(m, order, gx) == []
  {
    if order != [] {
      DraftListsNone(m, order[..|order| - 1], gx);
    }
  }

  /** The search over the lists `m` with key order `order` of a draft built over `words` and `scores`. */
  lemma DraftSearchUnfold(words: seq<string>, scores: seq<int>, q: nat, prefix: string, delta: int,
                          m: Index, order: seq<string>, merged: seq<Posting>)
    requires q >= 1 && |scores| <= |words|
    requires m == AppendIndex(NameDocs(words[..|scores|], q))
    requires order == FirstSeen(Flatten(NameDocs(words[..|scores|], q)))
    requires DraftKeysIn(m, order) && merged == Merged(DraftLists(m, order, PaddedGrams(prefix, q)))
    ensures IdsIn(merged, |scores|)
    ensures DraftSearch(words, scores, q, prefix, delta)
         == Verified(merged, prefix, Threshold(prefix, q, delta), delta, words, scores)
  {
    DraftMergedIds(NameDocs(words[..|scores|], q), PaddedGrams(prefix, q));
  }

  /** The loop over the merged list of `find_matches`. */
  method VerifyMerged(merged: seq<Posting>, prefix: string, threshold: int, delta: int,
                      words: seq<string>, scores: seq<int>) returns (result: seq<Found>)
    requires IdsIn(merged, |scores|) && |scores| <= |words|
    ensures result == Verified(merged, prefix, threshold, delta, words, scores)
  {
    result := [];
    for i := 0 to |merged|
      invariant result == Verified(merged[..i], prefix, threshold, delta, words, scores)
    {
      assert merged[..i + 1][..i] == merged[..i];
      var p := merged[i];
      if p.count >= threshold {
        var d := Ped(prefix, words[p.id - 1]);
        if d <= delta {
          result := result + [Found(p.id, d, scores[p.id - 1])];
        }
      }
    }
    assert merged[..|merged|] == merged;
  }

  /** `key=lambda x: x[2], reverse=True`: score descending. */
  function ScoreDesc(f: Found): Key
  {
    (-f.score, 0)
  }

  /** `key=lambda x: x[1]`: PED ascending. */
  function PedAsc(f: Found): Key
  {
    (f.ped, 0)
  }

  /** The order the ranking promises: PED ascending, then score descending. */
  function PedThenScore(f: Found): Key
  {
    (f.ped, -f.score)
  }

  /** `rank_matches`: a stable sort by score descending, then a stable sort by PED. */
  function RankFound(ms: seq<Found>): (r: seq<Found>)
    ensures multiset(r) == multiset(ms)
  {
    SortBy(SortBy(ms, ScoreDesc), PedAsc)
  }

  /**
   * The two sorts rank by PED, and triples of equal PED by score,
   * highest first.
   */
  lemma RankFoundSorted(ms: seq<Found>)
    ensures SortedBy(RankFound(ms), PedThenScore)
  {
    var r := RankFound(ms);
    forall i, j | 0 <= i < j < |r|
      ensures KeyLe(PedThenScore(r[i]), PedThenScore(r[j]))
    {
      RankFoundPair(ms, i, j);
    }
  }

  lemma RankFoundPair(ms: seq<Found>, i: nat, j: nat)
    requires i < j < |RankFound(ms)|
    ensures KeyLe(PedThenScore(RankFound(ms)[i]), PedThenScore(RankFound(ms)[j]))
  {
    var s1 := SortBy(ms, ScoreDesc);
    var r := SortBy(s1, PedAsc);
    assert KeyLe(PedAsc(r[i]), PedAsc(r[j]));
    if r[i].ped == r[j].ped {
      var p := SameKey(PedAsc, r[i]);
      var a, b := FilterOrder(r, p, i, j);
      SortStable(s1, PedAsc, r[i]);
      FilterSorted(s1, p, ScoreDesc);
      assert KeyLe(ScoreDesc(Filter(s1, p)[a]), ScoreDesc(Filter(s1, p)[b]));
    }
  }

  /** Triples with equal PED and score keep the order they came in. */
  lemma RankFoundStable(ms: seq<Found>, z: Found)
    ensures Filter(RankFound(ms), SameKey(PedThenScore, z)) == Filter(ms, SameKey(PedThenScore, z))
  {
    var s1 := SortBy(ms, ScoreDesc);
    var full, byPed, byScore := SameKey(PedThenScore, z), SameKey(PedAsc, z), SameKey(ScoreDesc, z);
    Finer(z);
    calc {
      Filter(RankFound(ms), full);
      { FilterFilter(RankFound(ms), byPed, full); }
      Filter(Filter(SortBy(s1, PedAsc), byPed), full);
      { SortStable(s1, PedAsc, z); }
      Filter(Filter(s1, byPed), full);
      { FilterFilter(s1, byPed, full); FilterFilter(s1, byScore, full); }
      Filter(Filter(s1, byScore), full);
      { SortStable(ms, ScoreDesc, z); }
      Filter(Filter(ms, byScore), full);
      { FilterFilter(ms, byScore, full); }
      Filter(ms, full);
    }
  }

  /** Equal PED and score means equal PED and equal score. */
  lemma Finer(z: Found)
    ensures forall x :: SameKey(PedThenScore, z)(x) ==> SameKey(PedAsc, z)(x)
    ensures forall x :: SameKey(PedThenScore, z)(x) ==> SameKey(ScoreDesc, z)(x)
  {
    forall x | SameKey(PedThenScore, z)(x)
      ensures SameKey(PedAsc, z)(x) && SameKey(ScoreDesc, z)(x)
    {
      assert PedThenScore(x) == PedThenScore(z);
      assert x.ped == z.ped && x.score == z.score;
      assert PedAsc(x) == PedAsc(z) && ScoreDesc(x) == ScoreDesc(z);
    }
  }

  /** The doctest of `rank_matches`, first sort, first two triples. */
  lemma ByScoreTwo(a: Found, b: Found)
    requires a == Found(1, 0, 3) && b == Found(2, 1, 2)
    ensures SortBy([a, b], ScoreDesc) == [a, b]
  {
    Take4(a, b, b, b);
    assert SortBy([a], ScoreDesc) == [a];
  }

  lemma ByScoreThree(a: Found, b: Found, c: Found)
    requires a == Found(1, 0, 3) && b == Found(2, 1, 2) && c == Found(2, 1, 3)
    ensures SortBy([a, b, c], ScoreDesc) == [a, c, b]
  {
    Take4(a, b, c, c);
    ByScoreTwo(a, b);
    assert Insert([a], c, ScoreDesc) == [a, c];
  }

  lemma ByScoreFour(a: Found, b: Found, c: Found, d: Found)
    requires a == Found(1, 0, 3) && b == Found(2, 1, 2) && c == Found(2, 1, 3) && d == Found(1, 0, 2)
    ensures SortBy([a, b, c, d], ScoreDesc) == [a, c, b, d]
  {
    Take4(a, b, c, d);
    ByScoreThree(a, b, c);
  }

  /** The doctest of `rank_matches`, second sort. */
  lemma ByPedTwo(a: Found, c: Found)
    requires a == Found(1, 0, 3) && c == Found(2, 1, 3)
    ensures SortBy([a, c], PedAsc) == [a, c]
  {
    Take4(a, c, c, c);
    assert SortBy([a], PedAsc) == [a];
  }

  lemma ByPedThree(a: Found, b: Found, c: Found)
    requires a == Found(1, 0, 3) && b == Found(2, 1, 2) && c == Found(2, 1, 3)
    ensures SortBy([a, c, b], PedAsc) == [a, c, b]
  {
    Take4(a, c, b, b);
    ByPedTwo(a, c);
  }

  lemma ByPedLast(a: Found, b: Found, c: Found, d: Found)
    requires a == Found(1, 0, 3) && b == Found(2, 1, 2) && c == Found(2, 1, 3) && d == Found(1, 0, 2)
    requires SortedBy([a, c, b], PedAsc)
    ensures Insert([a, c, b], d, PedAsc) == [a, d, c, b]
  {
    Take4(a, c, b, b);
    ByPedInsertTwo(a, c, d);
  }

  lemma ByPedInsertTwo(a: Found, c: Found, d: Found)
    requires a == Found(1, 0, 3) && c == Found(2, 1, 3) && d == Found(1, 0, 2)
    ensures SortedBy([a, c], PedAsc) && Insert([a, c], d, PedAsc) == [a, d, c]
  {
    Take4(a, c, c, c);
    assert Insert([a], d, PedAsc) == [a, d];
  }

  /** The doctest of `rank_matches`. */
  lemma RankFoundExample()
    ensures RankFound([Found(1, 0, 3), Found(2, 1, 2), Found(2, 1, 3), Found(1, 0, 2)])
         == [Found(1, 0, 3), Found(1, 0, 2), Found(2, 1, 3), Found(2, 1, 2)]
  {
    var a, b, c, d := Found(1, 0, 3), Found(2, 1, 2), Found(2, 1, 3), Found(1, 0, 2);
    ByScoreFour(a, b, c, d);
    Take4(a, c, b, d);
    ByPedThree(a, b, c);
    ByPedLast(a, b, c, d);
  }

  class QGramDraft {
    const q: nat
    /** The inverted lists; `order` is the order in which their q-grams were first seen. */
    var invertedLists: Index
    var order: seq<string>
    var words: seq<string>
    var scores: seq<int>

    /** The q-grams of the entities whose score was read, entity 1 first. */
    function Docs(): seq<seq<string>>
      requires q >= 1 && |scores| <= |words|
      reads this
    {
      NameDocs(words[..|scores|], q)
    }

    /**
     * The lists are those of the entities whose score was read; a name
     * whose score could not be read is the last word.
     */
    predicate Valid()
      reads this
    {
      q >= 1 && |scores| <= |words| <= |scores| + 1
      && invertedLists == AppendIndex(Docs())
      && order == FirstSeen(Flatten(Docs()))
    }

    constructor (q: nat)
      requires q >= 1
      ensures this.q == q && invertedLists == map[] && order == [] && words == [] && scores == []
      ensures Valid()
    {
      this.q := q;
      invertedLists := map[];
      order := [];
      words := [];
      scores := [];
    }

    /**
     * `merge_lists`: the counts of each id over all lists are summed in a
     * dictionary, whose (id, count) items are then sorted.
     */
    method MergeLists(lists: seq<seq<Posting>>) returns (merged: seq<Posting>)
      ensures merged == Merged(lists)
    {
      var li: map<int, int> := map[];
      var keys: seq<int> := [];
      for i := 0 to |lists|
        invariant Tallied(li, keys, Flatten(lists[..i]))
      {
        ghost var before := Flatten(lists[..i]);
        assert before + lists[i][..0] == before;
        for j := 0 to |lists[i]|
          invariant Tallied(li, keys, before + lists[i][..j])
        {
          var p := lists[i][j];
          TallyStep(li, keys, before + lists[i][..j], p);
          assert before + lists[i][..j + 1] == before + lists[i][..j] + [p];
          if p.id in li {
            li := li[p.id := li[p.id] + p.count];
          } else {
            li := li[p.id := p.count];
            keys := keys + [p.id];
          }
        }
        assert lists[i][..|lists[i]|] == lists[i];
        FlattenPrefixStep(lists, i);
      }
      assert lists[..|lists|] == lists;
      TallyMerged(li, keys, lists);
      merged := SortBy(Items(li, keys), PostingKey);
    }

    /**
     * `find_matches`: the lists of the prefix's q-grams are merged, and
     * each merged entity whose count reaches |prefix| - q*delta and whose
     * name is within prefix edit distance delta is reported as (entity id,
     * PED, score).
     */
    method FindMatches(prefix: string, delta: int) returns (result: seq<Found>)
      requires Valid()
      ensures result == DraftSearch(words, scores, q, prefix, delta)
    {
      var gx := ComputeQGrams(prefix);
      var tmp := CollectLists(gx);
      var merged := MergeLists(tmp);
      var ws, ss := words, scores;
      DraftSearchUnfold(ws, ss, q, prefix, delta, invertedLists, order, merged);
      var threshold := |prefix| - q * delta;
      assert threshold == Threshold(prefix, q, delta);
      result := VerifyMerged(merged, prefix, threshold, delta, ws, ss);
      assert ws == words && ss == scores;
    }

    /** The loop over `inverted_lists.items()`: the lists of the keys that are q-grams of the prefix. */
    method CollectLists(gx: seq<string>) returns (lists: seq<seq<Posting>>)
      requires Valid()
      ensures DraftKeysIn(invertedLists, order) && lists == DraftLists(invertedLists, order, gx)
    {
      DraftKeys(Docs());
      lists := [];
      for i := 0 to |order|
        invariant DraftKeysIn(invertedLists, order[..i])
        invariant lists == DraftLists(invertedLists, order[..i], gx)
      {
        assert order[..i + 1][..i] == order[..i];
        if order[i] in gx {
          lists := lists + [invertedLists[order[i]]];
        }
      }
      assert order[..|order|] == order;
    }

    /** `compute_qgrams`: the padded q-grams of `word`, one per character. */
    method ComputeQGrams(word: string) returns (grams: seq<string>)
      requires q >= 1
      ensures grams == PaddedGrams(word, q)
    {
      grams := [];
      var padded := Pad(q) + word;
      for i := 0 to |padded| - q + 1
        invariant grams == PaddedGrams(word, q)[..i]
      {
        grams := grams + [padded[i..i + q]];
      }
    }

    /** The q-gram loop of `build_from_file`: (id, 1) appended per occurrence, new q-grams last in key order. */
    method AddGrams(grams: seq<string>, id: int, ghost flat: seq<string>)
      requires order == FirstSeen(flat) && forall g :: g in invertedLists <==> g in order
      modifies this`invertedLists, this`order
      ensures invertedLists == AppendAll(old(invertedLists), grams, id)
      ensures order == FirstSeen(flat + grams)
    {
      assert flat + grams[..0] == flat;
      for j := 0 to |grams|
        invariant invertedLists == AppendAll(old(invertedLists), grams[..j], id)
        invariant order == FirstSeen(flat + grams[..j])
        invariant forall g :: g in invertedLists <==> g in order
      {
        var g := grams[j];
        GramStep(old(invertedLists), flat, grams, j, id);
        if g !in invertedLists {
          invertedLists := invertedLists[g := []];
          order := order + [g];
        }
        invertedLists := invertedLists[g := invertedLists[g] + [Posting(id, 1)]];
      }
      assert grams[..|grams|] == grams;
    }

    /**
     * The body of the line loop of `build_from_file` for entity `id`: the
     * fields are split, the normalised name is appended, then the score,
     * then the q-grams are indexed. A line with fewer than three fields
     * raises ValueError before anything is appended, a score that is not
     * an integer after the name was appended.
     */
    method AddEntity(line: string, id: int) returns (error: Option<Error>)
      requires Valid() && |words| == |scores| && id == |scores| + 1
      modifies this`invertedLists, this`order, this`words, this`scores
      ensures Valid()
      ensures match ReadLine(line)
              case BadFields => error == Some(ValueError) && words == old(words) && scores == old(scores)
              case BadScore(n) => error == Some(ValueError) && words == old(words) + [n] && scores == old(scores)
              case Entity(n, v) => error == None && words == old(words) + [n] && scores == old(scores) + [v]
    {
      assert words[..|scores|] == words;
      var parts := Split(Strip(line), '\t');
      if |parts| < 3 {
        return Some(ValueError);
      }
      var name := Normalize(parts[0]);
      words := words + [name];
      var score := ParseInt(parts[1]);
      if score.Fail? {
        assert words[..|scores|] == old(words);
        return Some(ValueError);
      }
      IndexEntity(name, score.value, id);
      error := None;
    }

    /** The rest of the loop body once the name is appended: the score, then the q-grams of the name. */
    method IndexEntity(name: string, score: int, id: int)
      requires Valid() && |words| == |scores| + 1 && words[|scores|] == name && id == |words|
      modifies this`invertedLists, this`order, this`scores
      ensures Valid() && scores == old(scores) + [score]
    {
      ghost var docs := Docs();
      ghost var before := words[..|scores|];
      scores := scores + [score];
      var grams := ComputeQGrams(name);
      assert words[..|scores|] == before + [name];
      NameDocsStep(before, name, q);
      DocsStep(docs, grams);
      FirstSeenElements(Flatten(docs));
      forall g
        ensures g in invertedLists <==> g in order
      {
        AppendIndexSpec(docs, g);
      }
      AddGrams(grams, id, Flatten(docs));
    }

    /**
     * `build_from_file` on the lines of the file: the first line is
     * skipped and line i (from 1) is entity i. Reading stops at the first
     * line whose fields or score cannot be read.
     */
    method BuildFromLines(lines: seq<string>) returns (error: Option<Error>)
      requires Valid() && invertedLists == map[] && order == [] && words == [] && scores == []
      modifies this`invertedLists, this`order, this`words, this`scores
      ensures Valid()
      ensures Loaded(Reads(Body(lines)), words, scores, error)
    {
      var body := Body(lines);
      error := ReadEntities(body, Reads(body));
    }

    /**
     * The line loop of `build_from_file` over the entity lines `body`, whose
     * reads are `rs`: it stops at the first line that raises ValueError.
     */
    method ReadEntities(body: seq<string>, ghost rs: seq<LineRead>) returns (error: Option<Error>)
      requires Valid() && words == [] && scores == []
      requires |rs| == |body|
      requires forall i {:trigger ReadLine(body[i])} :: 0 <= i < |body| ==> ReadLine(body[i]) == rs[i]
      modifies this`invertedLists, this`order, this`words, this`scores
      ensures Valid()
      ensures Loaded(rs, words, scores, error)
    {
      ghost var k := GoodEntities(rs);
      error := None;
      for i := 0 to |body|
        invariant i <= k && Valid() && error == None
        invariant words == Names(rs[..i]) && scores == Scores(rs[..i])
      {
        error := ReadStep(body[i], rs, i);
        if error.Some? {
          return;
        }
      }
      assert rs[..|body|] == rs;
    }

    /** One pass of the line loop: `line`, line `i` of the body, read into the index, or the error that ends the load. */
    method ReadStep(line: string, ghost rs: seq<LineRead>, i: nat) returns (error: Option<Error>)
      requires Valid() && ReadSoFar(rs, i, words, scores) && ReadLine(line) == rs[i]
      modifies this`invertedLists, this`order, this`words, this`scores
      ensures Valid()
      ensures ReadOn(rs, i, words, scores, error)
    {
      PrefixLengths(rs, i, words, scores);
      ghost var w0, s0 := words, scores;
      error := AddEntity(line, i + 1);
      ReadOnAfter(rs, i, w0, s0, words, scores, error);
    }
  }
}
