/**
 * What `find_matches` and `rank_matches` of the q-gram index compute,
 * stated over the normalised names, their entities and the cached entity
 * fields: the lists of the prefix's q-grams are merged, names whose
 * merged count reaches |x| - q*delta are verified by prefix edit
 * distance, and the survivors are sorted by (entity, PED) and reduced to
 * the first one per entity.
 */
module QGramSearch {
  import opened Seqs
  import opened Outcomes
  import opened Strings
  import opened Sorting
  import opened Postings
  import opened PrefixEditDistance
  import opened QGramFilter

  /** The documents the index is built from: the padded q-grams of each normalised name. */
  function NameDocs(normNames: seq<string>, q: nat): (docs: seq<seq<string>>)
    requires q >= 1
    ensures |docs| == |normNames|
  {
    if normNames == [] then []
    else NameDocs(normNames[..|normNames| - 1], q) + [PaddedGrams(Last(normNames), q)]
  }

  lemma {:induction false} NameDocsAt(normNames: seq<string>, q: nat, n: nat)
    requires q >= 1 && n < |normNames|
    ensures NameDocs(normNames, q)[n] == PaddedGrams(normNames[n], q)
  {
    if n < |normNames| - 1 {
      NameDocsAt(normNames[..|normNames| - 1], q, n);
    }
  }

  /** The index the names are searched in. */
  function NameIndex(normNames: seq<string>, q: nat): Index
    requires q >= 1
  {
    IndexOf(NameDocs(normNames, q))
  }

  /** The lists of those q-grams of the prefix that have one, in q-gram order. */
  function GramLists(idx: Index, grams: seq<string>): (lists: seq<seq<Posting>>)
    ensures |lists| <= |grams|
  {
    if grams == [] then []
    else
      var g := Last(grams);
      GramLists(idx, grams[..|grams| - 1]) + if g in idx then [idx[g]] else []
  }

  /** The lists `find_matches` merges for `prefix`. */
  function PrefixLists(prefix: string, q: nat, normNames: seq<string>): seq<seq<Posting>>
    requires q >= 1
  {
    GramLists(NameIndex(normNames, q), PaddedGrams(prefix, q))
  }

  /** Every id of `ps` is a name id 1..n. */
  predicate IdsIn(ps: seq<Posting>, n: int)
  {
    forall i :: 0 <= i < |ps| ==> 1 <= ps[i].id <= n
  }

  /** Number of pairs (i, j) with gx[i] == gy[j]. */
  function CountIn(gx: seq<string>, gy: seq<string>): nat
  {
    if gx == [] then 0 else CountIn(gx[..|gx| - 1], gy) + Count(Last(gx), gy)
  }

  lemma {:induction false} CountInAppend(gx: seq<string>, gy: seq<string>, y: string)
    ensures CountIn(gx, gy + [y]) == CountIn(gx, gy) + Count(y, gx)
  {
    if gx != [] {
      CountInAppend(gx[..|gx| - 1], gy, y);
      assert (gy + [y])[..|gy|] == gy;
    }
  }

  /**
   * Counting every pair of equal q-grams is at least counting the
   * q-grams of `gy` that occur in `gx`.
   */
  lemma {:induction false} CountInShared(gx: seq<string>, gy: seq<string>)
    ensures CountIn(gx, gy) >= Shared(gy, gx)
  {
    if gy != [] {
      var init := gy[..|gy| - 1];
      CountInShared(gx, init);
      CountInAppend(gx, init, Last(gy));
      assert init + [Last(gy)] == gy;
    }
  }

  /**
   * The lists of the prefix's q-grams hold, for name n, the number of
   * pairs of equal q-grams between the prefix and the name.
   */
  lemma {:induction false} GramListsSum(docs: seq<seq<string>>, gx: seq<string>, n: int)
    requires 1 <= n <= |docs|
    ensures SumOverLists(n, GramLists(IndexOf(docs), gx)) == CountIn(gx, docs[n - 1])
  {
    if gx != [] {
      var idx := IndexOf(docs);
      var g := Last(gx);
      var init := gx[..|gx| - 1];
      GramListsSum(docs, init, n);
      var tail := if g in idx then [idx[g]] else [];
      GramListSum(docs, g, n);
      SumOverListsAppend(n, GramLists(idx, init), tail);
    }
  }

  /** The list of one q-gram holds its number of occurrences in name n. */
  lemma GramListSum(docs: seq<seq<string>>, g: string, n: int)
    requires 1 <= n <= |docs|
    ensures (if g in IndexOf(docs) then SumFor(n, IndexOf(docs)[g]) else 0) == Count(g, docs[n - 1])
  {
    IndexOfSpec(docs);
    ListForCount(g, docs, n);
    assert Get(IndexOf(docs), g) == ListFor(g, docs);
  }

  lemma SumOverListsAppend(id: int, lists: seq<seq<Posting>>, tail: seq<seq<Posting>>)
    requires |tail| <= 1
    ensures SumOverLists(id, lists + tail)
         == SumOverLists(id, lists) + if tail == [] then 0 else SumFor(id, tail[0])
  {
    if tail == [] {
      assert lists + tail == lists;
    } else {
      assert (lists + tail)[..|lists|] == lists;
    }
  }

  lemma IdsInAppend(a: seq<Posting>, b: seq<Posting>, n: int)
    requires IdsIn(a, n) && IdsIn(b, n)
    ensures IdsIn(a + b, n)
  {
    assert forall i :: |a| <= i < |a + b| ==> (a + b)[i] == b[i - |a|];
  }

  lemma IndexListIds(docs: seq<seq<string>>, g: string)
    requires g in IndexOf(docs)
    ensures IdsIn(IndexOf(docs)[g], |docs|)
  {
    IndexOfSpec(docs);
    assert Get(IndexOf(docs), g) == ListFor(g, docs);
  }

  /** Every list of the prefix is a list of the index, with name ids 1..|names|. */
  lemma {:induction false} GramListsIds(docs: seq<seq<string>>, gx: seq<string>)
    ensures IdsIn(Flatten(GramLists(IndexOf(docs), gx)), |docs|)
  {
    if gx != [] {
      var idx := IndexOf(docs);
      var g := Last(gx);
      var init := gx[..|gx| - 1];
      GramListsIds(docs, init);
      if g in idx {
        IndexListIds(docs, g);
        IdsInAppend(Flatten(GramLists(idx, init)), idx[g], |docs|);
      } else {
        assert GramLists(idx, gx) == GramLists(idx, init);
      }
    }
  }

  /** The merged list of the prefix: `merge_lists` of its lists. */
  function PrefixMerged(prefix: string, q: nat, normNames: seq<string>): seq<Posting>
    requires q >= 1
  {
    Merged(PrefixLists(prefix, q, normNames))
  }

  /** Every merged id is a name id. */
  lemma PrefixMergedIds(prefix: string, q: nat, normNames: seq<string>)
    requires q >= 1
    ensures IdsIn(PrefixMerged(prefix, q, normNames), |normNames|)
  {
    var lists := PrefixLists(prefix, q, normNames);
    var merged := Merged(lists);
    var flat := Flatten(lists);
    GramListsIds(NameDocs(normNames, q), PaddedGrams(prefix, q));
    MergedSpec(lists);
    forall i | 0 <= i < |merged|
      ensures 1 <= merged[i].id <= |normNames|
    {
      assert merged[i].id in Ids(merged);
      var p :| p in flat && p.id == merged[i].id;
      var j :| 0 <= j < |flat| && flat[j] == p;
    }
  }

  /**
   * The merged count of name n is the number of pairs of equal q-grams
   * between the prefix and the name.
   */
  lemma PrefixMergedCount(prefix: string, q: nat, normNames: seq<string>, n: int)
    requires q >= 1 && 1 <= n <= |normNames|
    ensures SumFor(n, PrefixMerged(prefix, q, normNames))
         == CountIn(PaddedGrams(prefix, q), PaddedGrams(normNames[n - 1], q))
  {
    var lists := PrefixLists(prefix, q, normNames);
    MergedSpec(lists);
    SumForFlatten(n, lists);
    GramListsSum(NameDocs(normNames, q), PaddedGrams(prefix, q), n);
    NameDocsAt(normNames, q, n - 1);
  }

  /**
   * The count filter: a name within prefix edit distance d of the prefix
   * has merged count at least |prefix| - q*d.
   */
  lemma PrefixMergedBound(prefix: string, q: nat, normNames: seq<string>, n: int)
    requires q >= 1 && 1 <= n <= |normNames|
    ensures SumFor(n, PrefixMerged(prefix, q, normNames)) >= |prefix| - q * Ped(prefix, normNames[n - 1])
  {
    var gx, gy := PaddedGrams(prefix, q), PaddedGrams(normNames[n - 1], q);
    PrefixMergedCount(prefix, q, normNames, n);
    CountInShared(gx, gy);
    FilterCount(prefix, normNames[n - 1], q);
  }

  /** A verified candidate: (entity id, PED, name id). */
  datatype Candidate = Candidate(entity: int, ped: nat, nameId: int)

  /** A result of `find_matches`: (entity id, PED, score, name id). */
  datatype Match = Match(entity: int, ped: nat, score: int, nameId: int)

  /** The PED of the prefix to every normalised name, in name order. */
  function PedsOf(prefix: string, normNames: seq<string>): (peds: seq<nat>)
    ensures |peds| == |normNames|
  {
    if normNames == [] then []
    else PedsOf(prefix, normNames[..|normNames| - 1]) + [Ped(prefix, Last(normNames))]
  }

  lemma {:induction false} PedsOfAt(prefix: string, normNames: seq<string>, n: nat)
    requires n < |normNames|
    ensures PedsOf(prefix, normNames)[n] == Ped(prefix, normNames[n])
  {
    var init := normNames[..|normNames| - 1];
    if n < |init| {
      PedsOfAt(prefix, init, n);
    }
  }

  /**
   * The candidate loop: a posting whose count reaches the threshold is
   * verified by PED (`peds[id - 1]`), and kept with its name's entity
   * when the PED is at most delta.
   */
  function Candidates(ps: seq<Posting>, threshold: int, delta: int, peds: seq<nat>, nameEnt: seq<int>)
    : (cs: seq<Candidate>)
    requires |nameEnt| == |peds| && IdsIn(ps, |peds|)
    ensures |cs| <= |ps|
  {
    if ps == [] then []
    else
      var p := Last(ps);
      var rest := Candidates(ps[..|ps| - 1], threshold, delta, peds, nameEnt);
      if p.count >= threshold && peds[p.id - 1] <= delta then rest + [Candidate(nameEnt[p.id - 1], peds[p.id - 1], p.id)]
      else rest
  }

  /** The candidate made from a posting that passes both checks. */
  predicate Made(c: Candidate, p: Posting, threshold: int, delta: int, peds: seq<nat>, nameEnt: seq<int>)
    requires |nameEnt| == |peds| && 1 <= p.id <= |peds|
  {
    p.count >= threshold && peds[p.id - 1] <= delta
    && c == Candidate(nameEnt[p.id - 1], peds[p.id - 1], p.id)
  }

  /** Every candidate is made from a posting of `ps`. */
  lemma {:induction false} CandidatesSound(ps: seq<Posting>, threshold: int, delta: int, peds: seq<nat>,
                                           nameEnt: seq<int>, c: Candidate) returns (i: nat)
    requires |nameEnt| == |peds| && IdsIn(ps, |peds|)
    requires c in Candidates(ps, threshold, delta, peds, nameEnt)
    ensures i < |ps| && Made(c, ps[i], threshold, delta, peds, nameEnt)
  {
    var init := ps[..|ps| - 1];
    if c in Candidates(init, threshold, delta, peds, nameEnt) {
      i := CandidatesSound(init, threshold, delta, peds, nameEnt, c);
      assert ps[i] == init[i];
    } else {
      i := |ps| - 1;
    }
  }

  /** Every posting that passes both checks gives a candidate. */
  lemma {:induction false} CandidatesComplete(ps: seq<Posting>, threshold: int, delta: int, peds: seq<nat>,
                                              nameEnt: seq<int>, i: nat)
    requires |nameEnt| == |peds| && IdsIn(ps, |peds|) && i < |ps|
    requires ps[i].count >= threshold && peds[ps[i].id - 1] <= delta
    ensures Candidate(nameEnt[ps[i].id - 1], peds[ps[i].id - 1], ps[i].id) in Candidates(ps, threshold, delta, peds, nameEnt)
  {
    var init := ps[..|ps| - 1];
    if i < |init| {
      assert init[i] == ps[i];
      CandidatesComplete(init, threshold, delta, peds, nameEnt, i);
    }
  }

  /** The number of PED computations: postings whose count reaches the threshold. */
  function PedCalls(ps: seq<Posting>, threshold: int): (n: nat)
    ensures n <= |ps|
  {
    if ps == [] then 0
    else PedCalls(ps[..|ps| - 1], threshold) + if Last(ps).count >= threshold then 1 else 0
  }

  /** Extending a prefix of the postings by one posting extends the candidates and the PED count accordingly. */
  lemma PrefixStep(ps: seq<Posting>, k: nat, threshold: int, delta: int, peds: seq<nat>, nameEnt: seq<int>)
    requires k < |ps| && |nameEnt| == |peds| && IdsIn(ps, |peds|)
    ensures IdsIn(ps[..k], |peds|) && IdsIn(ps[..k + 1], |peds|)
    ensures PedCalls(ps[..k + 1], threshold) == PedCalls(ps[..k], threshold) + if ps[k].count >= threshold then 1 else 0
    ensures Candidates(ps[..k + 1], threshold, delta, peds, nameEnt)
         == if ps[k].count >= threshold && peds[ps[k].id - 1] <= delta
            then Candidates(ps[..k], threshold, delta, peds, nameEnt) + [Candidate(nameEnt[ps[k].id - 1], peds[ps[k].id - 1], ps[k].id)]
            else Candidates(ps[..k], threshold, delta, peds, nameEnt)
  {
    assert ps[..k + 1][..k] == ps[..k];
  }

  /** `sorted(matches, key=lambda match: (match[0], match[1]))`. */
  function CandidateKey(c: Candidate): Key
  {
    (c.entity, c.ped)
  }

  /** The dedup loop: a candidate is kept when its entity differs from the last kept one. */
  function FirstPerEntity(cs: seq<Candidate>): (r: seq<Candidate>)
    ensures |r| <= |cs|
    ensures cs != [] ==> r != [] && Last(r).entity == Last(cs).entity
  {
    if cs == [] then []
    else
      var r := FirstPerEntity(cs[..|cs| - 1]);
      if r == [] || Last(r).entity != Last(cs).entity then r + [Last(cs)] else r
  }

  /** An earlier prefix of the candidates gives an earlier prefix of the kept ones. */
  lemma {:induction false} FirstPerEntityPrefix(cs: seq<Candidate>, i: nat)
    requires i <= |cs|
    ensures |FirstPerEntity(cs[..i])| <= |FirstPerEntity(cs)|
    ensures FirstPerEntity(cs)[..|FirstPerEntity(cs[..i])|] == FirstPerEntity(cs[..i])
  {
    if i == |cs| {
      assert cs[..i] == cs;
    } else {
      var init := cs[..|cs| - 1];
      FirstPerEntityPrefix(init, i);
      assert init[..i] == cs[..i];
    }
  }

  /** Every kept candidate is a candidate. */
  lemma {:induction false} FirstPerEntityFrom(cs: seq<Candidate>)
    ensures forall i :: 0 <= i < |FirstPerEntity(cs)| ==> FirstPerEntity(cs)[i] in cs
  {
    if cs != [] {
      var init := cs[..|cs| - 1];
      FirstPerEntityFrom(init);
      assert forall c :: c in init ==> c in cs;
    }
  }

  /** Strictly ascending entities in a sequence of candidates. */
  predicate AscendingEntities(r: seq<Candidate>)
  {
    forall i, j :: 0 <= i < j < |r| ==> r[i].entity < r[j].entity
  }

  /** On candidates sorted by (entity, PED), the kept entities strictly ascend. */
  lemma {:induction false} FirstPerEntityAscending(cs: seq<Candidate>)
    requires SortedBy(cs, CandidateKey)
    ensures AscendingEntities(FirstPerEntity(cs))
  {
    if cs != [] {
      var init := cs[..|cs| - 1];
      var x := Last(cs);
      var r0 := FirstPerEntity(init);
      FirstPerEntityAscending(init);
      FirstPerEntityFrom(init);
      if r0 != [] && Last(r0).entity != x.entity {
        assert Last(r0) in init;
        var j :| 0 <= j < |init| && init[j] == Last(r0);
        assert KeyLe(CandidateKey(cs[j]), CandidateKey(cs[|cs| - 1]));
        assert FirstPerEntity(cs) == r0 + [x];
      }
    }
  }

  /**
   * On candidates sorted by (entity, PED), every candidate's entity is
   * kept, with a PED no larger than the candidate's.
   */
  lemma {:induction false} FirstPerEntityCovers(cs: seq<Candidate>, c: Candidate) returns (i: nat)
    requires SortedBy(cs, CandidateKey) && c in cs
    ensures i < |FirstPerEntity(cs)|
    ensures FirstPerEntity(cs)[i].entity == c.entity && FirstPerEntity(cs)[i].ped <= c.ped
  {
    var init := cs[..|cs| - 1];
    var r0 := FirstPerEntity(init);
    var r := FirstPerEntity(cs);
    if c in init {
      i := FirstPerEntityCovers(init, c);
      FirstPerEntityPrefix(cs, |cs| - 1);
      assert r[..|r0|] == r0;
      assert r[i] == r0[i];
    } else {
      i := |r| - 1;
      FirstPerEntityLast(cs);
    }
  }

  /** The last kept candidate has the last candidate's entity and no larger PED. */
  lemma FirstPerEntityLast(cs: seq<Candidate>)
    requires SortedBy(cs, CandidateKey) && cs != []
    ensures Last(FirstPerEntity(cs)).ped <= Last(cs).ped
  {
    var init := cs[..|cs| - 1];
    var r0 := FirstPerEntity(init);
    if r0 != [] && Last(r0).entity == Last(cs).entity {
      FirstPerEntityFrom(init);
      assert Last(r0) in init;
      var j :| 0 <= j < |init| && init[j] == Last(r0);
      assert KeyLe(CandidateKey(cs[j]), CandidateKey(cs[|cs| - 1]));
    }
  }


  /** The score field of an entity line: `int(fields[1])`. */
  function FieldScore(fields: seq<string>): Result<int>
  {
    if |fields| < 2 then Fail(IndexError) else ParseInt(fields[1])
  }

  /** The score of entity e: `int(entities[e - 1][1])`. */
  function ScoreOf(entities: seq<seq<string>>, e: int): Result<int>
    requires 1 <= e <= |entities|
  {
    FieldScore(entities[e - 1])
  }

  /** The score of every entity, in entity order. */
  function EntityScores(entities: seq<seq<string>>): (scores: seq<Result<int>>)
    ensures |scores| == |entities|
  {
    if entities == [] then []
    else EntityScores(entities[..|entities| - 1]) + [FieldScore(Last(entities))]
  }

  lemma {:induction false} EntityScoresAt(entities: seq<seq<string>>, e: int)
    requires 1 <= e <= |entities|
    ensures EntityScores(entities)[e - 1] == ScoreOf(entities, e)
  {
    var init := entities[..|entities| - 1];
    if e <= |init| {
      EntityScoresAt(init, e);
    }
  }

  predicate EntitiesIn(cs: seq<Candidate>, n: int)
  {
    forall i :: 0 <= i < |cs| ==> 1 <= cs[i].entity <= n
  }

  /**
   * The kept candidates with their scores; the first candidate whose
   * score cannot be read raises its error.
   */
  function ToMatches(cs: seq<Candidate>, scores: seq<Result<int>>): (r: Result<seq<Match>>)
    requires EntitiesIn(cs, |scores|)
    ensures r.Ok? ==> |r.value| == |cs|
  {
    if cs == [] then Ok([])
    else
      var c := Last(cs);
      var init := cs[..|cs| - 1];
      assert EntitiesIn(init, |scores|) by {
        assert forall i :: 0 <= i < |init| ==> init[i] == cs[i];
      }
      match ToMatches(init, scores)
      case Fail(e) => Fail(e)
      case Ok(ms) =>
        match scores[c.entity - 1]
        case Fail(e) => Fail(e)
        case Ok(s) => Ok(ms + [Match(c.entity, c.ped, s, c.nameId)])
  }

  /** A match is its candidate with the entity's score. */
  predicate Scored(m: Match, c: Candidate, scores: seq<Result<int>>)
    requires 1 <= c.entity <= |scores|
  {
    m.entity == c.entity && m.ped == c.ped && m.nameId == c.nameId
    && scores[c.entity - 1] == Ok(m.score)
  }

  /** When every score can be read, the matches are the candidates with their scores. */
  lemma {:induction false} ToMatchesOk(cs: seq<Candidate>, scores: seq<Result<int>>)
    requires EntitiesIn(cs, |scores|) && ToMatches(cs, scores).Ok?
    ensures forall i :: 0 <= i < |cs| ==> Scored(ToMatches(cs, scores).value[i], cs[i], scores)
  {
    if cs != [] {
      var init := cs[..|cs| - 1];
      assert forall i :: 0 <= i < |init| ==> init[i] == cs[i];
      ToMatchesOk(init, scores);
    }
  }

  /** A kept candidate whose score cannot be read makes the result fail. */
  lemma {:induction false} ToMatchesFailAt(cs: seq<Candidate>, scores: seq<Result<int>>, i: nat)
    requires EntitiesIn(cs, |scores|) && i < |cs| && scores[cs[i].entity - 1].Fail?
    ensures ToMatches(cs, scores).Fail?
  {
    var init := cs[..|cs| - 1];
    assert EntitiesIn(init, |scores|) by {
      assert forall k :: 0 <= k < |init| ==> init[k] == cs[k];
    }
    if i < |init| {
      assert init[i] == cs[i];
      ToMatchesFailAt(init, scores, i);
    }
  }

  /** A failing result names a kept candidate whose score cannot be read. */
  lemma {:induction false} ToMatchesFailWitness(cs: seq<Candidate>, scores: seq<Result<int>>)
    returns (i: nat)
    requires EntitiesIn(cs, |scores|) && ToMatches(cs, scores).Fail?
    ensures i < |cs| && scores[cs[i].entity - 1].Fail?
  {
    var init := cs[..|cs| - 1];
    assert EntitiesIn(init, |scores|) by {
      assert forall k :: 0 <= k < |init| ==> init[k] == cs[k];
    }
    if ToMatches(init, scores).Fail? {
      i := ToMatchesFailWitness(init, scores);
      assert cs[i] == init[i];
    } else {
      i := |cs| - 1;
    }
  }

  /** Once a prefix of the candidates fails, the whole list fails the same way. */
  lemma {:induction false} ToMatchesFailPrefix(cs: seq<Candidate>, scores: seq<Result<int>>, i: nat)
    requires EntitiesIn(cs, |scores|) && i <= |cs|
    requires EntitiesIn(cs[..i], |scores|) && ToMatches(cs[..i], scores).Fail?
    ensures ToMatches(cs, scores) == ToMatches(cs[..i], scores)
  {
    if i == |cs| {
      assert cs[..i] == cs;
    } else {
      var init := cs[..|cs| - 1];
      assert init[..i] == cs[..i];
      assert EntitiesIn(init, |scores|);
      ToMatchesFailPrefix(init, scores, i);
    }
  }

  /** Every name's entity is an entity id 1..n. */
  predicate EntsIn(nameEnt: seq<int>, n: int)
  {
    forall i :: 0 <= i < |nameEnt| ==> 1 <= nameEnt[i] <= n
  }

  /** The candidates, sorted by (entity, PED), then reduced to one per entity. */
  function Kept(ps: seq<Posting>, threshold: int, delta: int, peds: seq<nat>, nameEnt: seq<int>): seq<Candidate>
    requires |nameEnt| == |peds| && IdsIn(ps, |peds|)
  {
    FirstPerEntity(SortBy(Candidates(ps, threshold, delta, peds, nameEnt), CandidateKey))
  }

  /** A kept candidate is made from a posting of `ps`. */
  lemma KeptSound(ps: seq<Posting>, threshold: int, delta: int, peds: seq<nat>, nameEnt: seq<int>, i: nat)
    returns (k: nat)
    requires |nameEnt| == |peds| && IdsIn(ps, |peds|)
    requires i < |Kept(ps, threshold, delta, peds, nameEnt)|
    ensures k < |ps| && Made(Kept(ps, threshold, delta, peds, nameEnt)[i], ps[k], threshold, delta, peds, nameEnt)
  {
    var cs := Candidates(ps, threshold, delta, peds, nameEnt);
    var sorted := SortBy(cs, CandidateKey);
    FirstPerEntityFrom(sorted);
    var c := FirstPerEntity(sorted)[i];
    assert c in multiset(sorted);
    k := CandidatesSound(ps, threshold, delta, peds, nameEnt, c);
  }

  lemma KeptEntities(ps: seq<Posting>, threshold: int, delta: int, peds: seq<nat>, nameEnt: seq<int>, n: int)
    requires |nameEnt| == |peds| && IdsIn(ps, |peds|) && EntsIn(nameEnt, n)
    ensures EntitiesIn(Kept(ps, threshold, delta, peds, nameEnt), n)
  {
    forall i | 0 <= i < |Kept(ps, threshold, delta, peds, nameEnt)|
      ensures 1 <= Kept(ps, threshold, delta, peds, nameEnt)[i].entity <= n
    {
      var k := KeptSound(ps, threshold, delta, peds, nameEnt, i);
    }
  }

  /** Every posting that passes both checks has its entity kept, with no larger PED. */
  lemma KeptCovers(ps: seq<Posting>, threshold: int, delta: int, peds: seq<nat>, nameEnt: seq<int>, k: nat)
    returns (i: nat)
    requires |nameEnt| == |peds| && IdsIn(ps, |peds|)
    requires k < |ps| && ps[k].count >= threshold && peds[ps[k].id - 1] <= delta
    ensures i < |Kept(ps, threshold, delta, peds, nameEnt)|
    ensures Kept(ps, threshold, delta, peds, nameEnt)[i].entity == nameEnt[ps[k].id - 1]
    ensures Kept(ps, threshold, delta, peds, nameEnt)[i].ped <= peds[ps[k].id - 1]
  {
    var cs := Candidates(ps, threshold, delta, peds, nameEnt);
    var c := Candidate(nameEnt[ps[k].id - 1], peds[ps[k].id - 1], ps[k].id);
    CandidatesComplete(ps, threshold, delta, peds, nameEnt, k);
    assert c in multiset(cs);
    var sorted := SortBy(cs, CandidateKey);
    var kept := FirstPerEntity(sorted);
    assert kept == Kept(ps, threshold, delta, peds, nameEnt);
    i := FirstPerEntityCovers(sorted, c);
  }

  /** A passing posting whose entity's score cannot be read gives a kept candidate with that score. */
  lemma KeptFailAt(ps: seq<Posting>, threshold: int, delta: int, peds: seq<nat>, nameEnt: seq<int>,
                   scores: seq<Result<int>>, k: nat) returns (i: nat)
    requires |nameEnt| == |peds| && IdsIn(ps, |peds|) && EntsIn(nameEnt, |scores|)
    requires k < |ps| && ps[k].count >= threshold && peds[ps[k].id - 1] <= delta
    requires scores[nameEnt[ps[k].id - 1] - 1].Fail?
    ensures EntitiesIn(Kept(ps, threshold, delta, peds, nameEnt), |scores|)
    ensures i < |Kept(ps, threshold, delta, peds, nameEnt)|
    ensures scores[Kept(ps, threshold, delta, peds, nameEnt)[i].entity - 1].Fail?
  {
    KeptEntities(ps, threshold, delta, peds, nameEnt, |scores|);
    i := KeptCovers(ps, threshold, delta, peds, nameEnt, k);
  }

  /**
   * Everything `find_matches` does after the merge, on any list of
   * postings `ps`: verify, sort, keep one per entity, read the scores.
   */
  function Pipeline(ps: seq<Posting>, threshold: int, delta: int, peds: seq<nat>, nameEnt: seq<int>,
                    scores: seq<Result<int>>): Result<seq<Match>>
    requires |nameEnt| == |peds| && IdsIn(ps, |peds|) && EntsIn(nameEnt, |scores|)
  {
    KeptEntities(ps, threshold, delta, peds, nameEnt, |scores|);
    ToMatches(Kept(ps, threshold, delta, peds, nameEnt), scores)
  }

  /** Strictly ascending entities in a sequence of matches. */
  predicate AscendingMatches(ms: seq<Match>)
  {
    forall i, j :: 0 <= i < j < |ms| ==> ms[i].entity < ms[j].entity
  }

  /**
   * Each result comes from a posting of `ps` that passes both checks:
   * its name's entity and PED, and the entity's score. Entities strictly
   * ascend, so there is one result per entity.
   */
  lemma PipelineSound(ps: seq<Posting>, threshold: int, delta: int, peds: seq<nat>, nameEnt: seq<int>,
                      scores: seq<Result<int>>, i: nat)
    requires |nameEnt| == |peds| && IdsIn(ps, |peds|) && EntsIn(nameEnt, |scores|)
    requires Pipeline(ps, threshold, delta, peds, nameEnt, scores).Ok?
    requires i < |Pipeline(ps, threshold, delta, peds, nameEnt, scores).value|
    ensures var m := Pipeline(ps, threshold, delta, peds, nameEnt, scores).value[i];
            && (exists k :: 0 <= k < |ps| && ps[k].id == m.nameId && ps[k].count >= threshold)
            && 1 <= m.nameId <= |peds| && m.entity == nameEnt[m.nameId - 1]
            && m.ped == peds[m.nameId - 1] <= delta
            && scores[m.entity - 1] == Ok(m.score)
  {
    var kept := Kept(ps, threshold, delta, peds, nameEnt);
    KeptEntities(ps, threshold, delta, peds, nameEnt, |scores|);
    ToMatchesOk(kept, scores);
    var k := KeptSound(ps, threshold, delta, peds, nameEnt, i);
  }

  lemma PipelineAscending(ps: seq<Posting>, threshold: int, delta: int, peds: seq<nat>, nameEnt: seq<int>,
                          scores: seq<Result<int>>)
    requires |nameEnt| == |peds| && IdsIn(ps, |peds|) && EntsIn(nameEnt, |scores|)
    requires Pipeline(ps, threshold, delta, peds, nameEnt, scores).Ok?
    ensures AscendingMatches(Pipeline(ps, threshold, delta, peds, nameEnt, scores).value)
  {
    var kept := Kept(ps, threshold, delta, peds, nameEnt);
    KeptEntities(ps, threshold, delta, peds, nameEnt, |scores|);
    ToMatchesOk(kept, scores);
    FirstPerEntityAscending(SortBy(Candidates(ps, threshold, delta, peds, nameEnt), CandidateKey));
    var ms := Pipeline(ps, threshold, delta, peds, nameEnt, scores).value;
    assert forall i :: 0 <= i < |ms| ==> ms[i].entity == kept[i].entity;
  }

  /**
   * Every posting of `ps` that passes both checks has its entity among
   * the results, with a PED no larger than its own: the result for an
   * entity carries the least PED of its candidate names.
   */
  lemma PipelineBest(ps: seq<Posting>, threshold: int, delta: int, peds: seq<nat>, nameEnt: seq<int>,
                     scores: seq<Result<int>>, k: nat) returns (i: nat)
    requires |nameEnt| == |peds| && IdsIn(ps, |peds|) && EntsIn(nameEnt, |scores|)
    requires Pipeline(ps, threshold, delta, peds, nameEnt, scores).Ok?
    requires k < |ps| && ps[k].count >= threshold && peds[ps[k].id - 1] <= delta
    ensures var ms := Pipeline(ps, threshold, delta, peds, nameEnt, scores).value;
            i < |ms| && ms[i].entity == nameEnt[ps[k].id - 1] && ms[i].ped <= peds[ps[k].id - 1]
  {
    var kept := Kept(ps, threshold, delta, peds, nameEnt);
    KeptEntities(ps, threshold, delta, peds, nameEnt, |scores|);
    ToMatchesOk(kept, scores);
    i := KeptCovers(ps, threshold, delta, peds, nameEnt, k);
    var ms := Pipeline(ps, threshold, delta, peds, nameEnt, scores).value;
    assert Scored(ms[i], kept[i], scores);
  }


  /** A failing pipeline names a passing posting whose entity's score cannot be read. */
  lemma PipelineFailWitness(ps: seq<Posting>, threshold: int, delta: int, peds: seq<nat>, nameEnt: seq<int>,
                            scores: seq<Result<int>>) returns (k: nat)
    requires |nameEnt| == |peds| && IdsIn(ps, |peds|) && EntsIn(nameEnt, |scores|)
    requires Pipeline(ps, threshold, delta, peds, nameEnt, scores).Fail?
    ensures k < |ps| && ps[k].count >= threshold && peds[ps[k].id - 1] <= delta
    ensures scores[nameEnt[ps[k].id - 1] - 1].Fail?
  {
    var kept := Kept(ps, threshold, delta, peds, nameEnt);
    KeptEntities(ps, threshold, delta, peds, nameEnt, |scores|);
    var i := ToMatchesFailWitness(kept, scores);
    k := KeptSound(ps, threshold, delta, peds, nameEnt, i);
  }

  /** A passing posting whose entity's score cannot be read makes the pipeline fail. */
  lemma PipelineFailAt(ps: seq<Posting>, threshold: int, delta: int, peds: seq<nat>, nameEnt: seq<int>,
                       scores: seq<Result<int>>, k: nat)
    requires |nameEnt| == |peds| && IdsIn(ps, |peds|) && EntsIn(nameEnt, |scores|)
    requires k < |ps| && ps[k].count >= threshold && peds[ps[k].id - 1] <= delta
    requires scores[nameEnt[ps[k].id - 1] - 1].Fail?
    ensures Pipeline(ps, threshold, delta, peds, nameEnt, scores).Fail?
  {
    var i := KeptFailAt(ps, threshold, delta, peds, nameEnt, scores, k);
    ToMatchesFailAt(Kept(ps, threshold, delta, peds, nameEnt), scores, i);
  }


  /** The count threshold of `find_matches`: |x| - q*delta. */
  function Threshold(prefix: string, q: nat, delta: int): int
  {
    |prefix| - q * delta
  }

  /**
   * What `find_matches` does once the lists are merged into `ps`: check
   * counts and PEDs, keep the best name per entity, read the scores.
   */
  function AfterMerge(ps: seq<Posting>, prefix: string, delta: int, q: nat, normNames: seq<string>,
                      nameEnt: seq<int>, entities: seq<seq<string>>): Result<seq<Match>>
    requires |nameEnt| == |normNames| && EntsIn(nameEnt, |entities|) && IdsIn(ps, |normNames|)
  {
    Pipeline(ps, Threshold(prefix, q, delta), delta, PedsOf(prefix, normNames), nameEnt, EntityScores(entities))
  }

  /** `find_matches(prefix, delta)` on the index of these names, as written. */
  function FindMatchesSpec(prefix: string, delta: int, q: nat, normNames: seq<string>, nameEnt: seq<int>,
                           entities: seq<seq<string>>): Result<seq<Match>>
    requires q >= 1 && |nameEnt| == |normNames| && EntsIn(nameEnt, |entities|)
  {
    PrefixMergedIds(prefix, q, normNames);
    AfterMerge(PrefixMerged(prefix, q, normNames), prefix, delta, q, normNames, nameEnt, entities)
  }

  /**
   * What the merge promises: one posting per name id, in ascending order,
   * whose count is the number of pairs of equal q-grams of the prefix and
   * the name.
   */
  ghost predicate MergeOf(ps: seq<Posting>, prefix: string, q: nat, normNames: seq<string>)
    requires q >= 1
  {
    && StrictlyAscending(ps) && IdsIn(ps, |normNames|)
    && forall n :: 1 <= n <= |normNames| ==>
         SumFor(n, ps) == CountIn(PaddedGrams(prefix, q), PaddedGrams(normNames[n - 1], q))
  }

  /** The merged list of `find_matches` keeps the merge's promise. */
  lemma PrefixMergedIsMerge(prefix: string, q: nat, normNames: seq<string>)
    requires q >= 1
    ensures MergeOf(PrefixMerged(prefix, q, normNames), prefix, q, normNames)
  {
    MergedSpec(PrefixLists(prefix, q, normNames));
    PrefixMergedIds(prefix, q, normNames);
    forall n | 1 <= n <= |normNames|
      ensures SumFor(n, PrefixMerged(prefix, q, normNames))
           == CountIn(PaddedGrams(prefix, q), PaddedGrams(normNames[n - 1], q))
    {
      PrefixMergedCount(prefix, q, normNames, n);
    }
  }

  /**
   * The count filter on any merge: a name within PED d of the prefix has
   * count at least |prefix| - q*d.
   */
  lemma MergeBound(ps: seq<Posting>, prefix: string, q: nat, normNames: seq<string>, n: int)
    requires q >= 1 && MergeOf(ps, prefix, q, normNames) && 1 <= n <= |normNames|
    ensures SumFor(n, ps) >= |prefix| - q * Ped(prefix, normNames[n - 1])
  {
    CountInShared(PaddedGrams(prefix, q), PaddedGrams(normNames[n - 1], q));
    FilterCount(prefix, normNames[n - 1], q);
  }

  /** In a strictly ascending list, the posting of an id present carries its whole count. */
  lemma PostingOf(id: int, ps: seq<Posting>) returns (k: nat)
    requires StrictlyAscending(ps) && id in Ids(ps)
    ensures k < |ps| && ps[k].id == id && ps[k].count == SumFor(id, ps)
  {
    var p :| p in ps && p.id == id;
    k :| k < |ps| && ps[k] == p;
    SumForAscending(id, ps, k);
  }

  /**
   * A result made from name `m.nameId` of a list `ps`: its entity, its
   * PED within delta, a total count reaching the threshold and the
   * entity's score.
   */
  predicate FromName(m: Match, ps: seq<Posting>, threshold: int, delta: int, peds: seq<nat>, nameEnt: seq<int>,
                     scores: seq<Result<int>>)
    requires |nameEnt| == |peds| && EntsIn(nameEnt, |scores|)
  {
    && 1 <= m.nameId <= |peds| && m.entity == nameEnt[m.nameId - 1]
    && m.ped == peds[m.nameId - 1] <= delta
    && SumFor(m.nameId, ps) >= threshold
    && scores[m.entity - 1] == Ok(m.score)
  }

  /** PipelineSound for a strictly ascending list, by the total count of the name. */
  lemma PipelineSoundFor(ps: seq<Posting>, threshold: int, delta: int, peds: seq<nat>, nameEnt: seq<int>,
                         scores: seq<Result<int>>, i: nat)
    requires |nameEnt| == |peds| && IdsIn(ps, |peds|) && EntsIn(nameEnt, |scores|) && StrictlyAscending(ps)
    requires Pipeline(ps, threshold, delta, peds, nameEnt, scores).Ok?
    requires i < |Pipeline(ps, threshold, delta, peds, nameEnt, scores).value|
    ensures FromName(Pipeline(ps, threshold, delta, peds, nameEnt, scores).value[i], ps, threshold, delta, peds, nameEnt, scores)
  {
    PipelineSound(ps, threshold, delta, peds, nameEnt, scores, i);
    var m := Pipeline(ps, threshold, delta, peds, nameEnt, scores).value[i];
    var k :| 0 <= k < |ps| && ps[k].id == m.nameId && ps[k].count >= threshold;
    SumForAscending(m.nameId, ps, k);
  }

  /** PipelineBest for a strictly ascending list, by name id and total count. */
  lemma PipelineBestFor(ps: seq<Posting>, threshold: int, delta: int, peds: seq<nat>, nameEnt: seq<int>,
                        scores: seq<Result<int>>, n: int) returns (i: nat)
    requires |nameEnt| == |peds| && IdsIn(ps, |peds|) && EntsIn(nameEnt, |scores|) && StrictlyAscending(ps)
    requires Pipeline(ps, threshold, delta, peds, nameEnt, scores).Ok?
    requires 1 <= n <= |peds| && n in Ids(ps) && SumFor(n, ps) >= threshold && peds[n - 1] <= delta
    ensures var ms := Pipeline(ps, threshold, delta, peds, nameEnt, scores).value;
            i < |ms| && ms[i].entity == nameEnt[n - 1] && ms[i].ped <= peds[n - 1]
  {
    var k := PassingPosting(ps, threshold, delta, peds, n);
    var e, d := nameEnt[n - 1], peds[n - 1];
    assert e == nameEnt[ps[k].id - 1] && d == peds[ps[k].id - 1];
    i := PipelineBest(ps, threshold, delta, peds, nameEnt, scores, k);
  }


  /** The id at position k of a strictly ascending list, with its whole count. */
  lemma IdAt(ps: seq<Posting>, k: nat) returns (id: int)
    requires StrictlyAscending(ps) && k < |ps|
    ensures id == ps[k].id && id in Ids(ps) && SumFor(id, ps) == ps[k].count
  {
    id := ps[k].id;
    assert ps[k] in ps;
    SumForAscending(id, ps, k);
  }

  /** The name id and total count of a failing posting. */
  lemma FailingId(ps: seq<Posting>, threshold: int, delta: int, peds: seq<nat>, nameEnt: seq<int>,
                  scores: seq<Result<int>>, k: nat) returns (n: int)
    requires |nameEnt| == |peds| && IdsIn(ps, |peds|) && EntsIn(nameEnt, |scores|) && StrictlyAscending(ps)
    requires k < |ps| && ps[k].count >= threshold && peds[ps[k].id - 1] <= delta
    requires scores[nameEnt[ps[k].id - 1] - 1].Fail?
    ensures 1 <= n <= |peds| && n in Ids(ps) && SumFor(n, ps) >= threshold && peds[n - 1] <= delta
    ensures scores[nameEnt[n - 1] - 1].Fail?
  {
    n := IdAt(ps, k);
  }

  /** PipelineFailWitness for a strictly ascending list, by name id and total count. */
  lemma PipelineFailWitnessFor(ps: seq<Posting>, threshold: int, delta: int, peds: seq<nat>, nameEnt: seq<int>,
                               scores: seq<Result<int>>) returns (n: int)
    requires |nameEnt| == |peds| && IdsIn(ps, |peds|) && EntsIn(nameEnt, |scores|) && StrictlyAscending(ps)
    requires Pipeline(ps, threshold, delta, peds, nameEnt, scores).Fail?
    ensures 1 <= n <= |peds| && n in Ids(ps) && SumFor(n, ps) >= threshold && peds[n - 1] <= delta
    ensures scores[nameEnt[n - 1] - 1].Fail?
  {
    var k := PipelineFailWitness(ps, threshold, delta, peds, nameEnt, scores);
    n := FailingId(ps, threshold, delta, peds, nameEnt, scores, k);
  }

  /** The posting of a name id that passes both checks. */
  lemma PassingPosting(ps: seq<Posting>, threshold: int, delta: int, peds: seq<nat>, n: int) returns (k: nat)
    requires IdsIn(ps, |peds|) && StrictlyAscending(ps)
    requires 1 <= n <= |peds| && n in Ids(ps) && SumFor(n, ps) >= threshold && peds[n - 1] <= delta
    ensures k < |ps| && ps[k].id == n && ps[k].count >= threshold && peds[ps[k].id - 1] <= delta
  {
    k := PostingOf(n, ps);
  }

  /** The posting of a passing name id whose entity's score cannot be read. */
  lemma FailingPosting(ps: seq<Posting>, threshold: int, delta: int, peds: seq<nat>, nameEnt: seq<int>,
                       scores: seq<Result<int>>, n: int) returns (k: nat)
    requires |nameEnt| == |peds| && IdsIn(ps, |peds|) && EntsIn(nameEnt, |scores|) && StrictlyAscending(ps)
    requires 1 <= n <= |peds| && n in Ids(ps) && SumFor(n, ps) >= threshold && peds[n - 1] <= delta
    requires scores[nameEnt[n - 1] - 1].Fail?
    ensures k < |ps| && ps[k].id == n && ps[k].count >= threshold && peds[ps[k].id - 1] <= delta
    ensures scores[nameEnt[ps[k].id - 1] - 1].Fail?
  {
    k := PostingOf(n, ps);
  }

  /** PipelineFailAt for a strictly ascending list, by name id and total count. */
  lemma PipelineFailFor(ps: seq<Posting>, threshold: int, delta: int, peds: seq<nat>, nameEnt: seq<int>,
                        scores: seq<Result<int>>, n: int)
    requires |nameEnt| == |peds| && IdsIn(ps, |peds|) && EntsIn(nameEnt, |scores|) && StrictlyAscending(ps)
    requires 1 <= n <= |peds| && n in Ids(ps) && SumFor(n, ps) >= threshold && peds[n - 1] <= delta
    requires scores[nameEnt[n - 1] - 1].Fail?
    ensures Pipeline(ps, threshold, delta, peds, nameEnt, scores).Fail?
  {
    var k := FailingPosting(ps, threshold, delta, peds, nameEnt, scores, n);
    PipelineFailAt(ps, threshold, delta, peds, nameEnt, scores, k);
  }

  /** The PED and score table entries of name n. */
  lemma TablesAt(prefix: string, normNames: seq<string>, nameEnt: seq<int>, entities: seq<seq<string>>, n: int)
    requires |nameEnt| == |normNames| && EntsIn(nameEnt, |entities|) && 1 <= n <= |normNames|
    ensures PedsOf(prefix, normNames)[n - 1] == Ped(prefix, normNames[n - 1])
    ensures EntityScores(entities)[nameEnt[n - 1] - 1] == ScoreOf(entities, nameEnt[n - 1])
  {
    PedsOfAt(prefix, normNames, n - 1);
    EntityScoresAt(entities, nameEnt[n - 1]);
  }

  /** FromName with the PED and score tables of `find_matches` spelled out. */
  lemma FromNameOf(m: Match, ps: seq<Posting>, threshold: int, delta: int, prefix: string, normNames: seq<string>,
                   nameEnt: seq<int>, entities: seq<seq<string>>)
    requires |nameEnt| == |normNames| && EntsIn(nameEnt, |entities|)
    requires FromName(m, ps, threshold, delta, PedsOf(prefix, normNames), nameEnt, EntityScores(entities))
    ensures && 1 <= m.nameId <= |normNames| && m.entity == nameEnt[m.nameId - 1]
            && m.ped == Ped(prefix, normNames[m.nameId - 1]) <= delta
            && SumFor(m.nameId, ps) >= threshold
            && ScoreOf(entities, m.entity) == Ok(m.score)
  {
    PedsOfAt(prefix, normNames, m.nameId - 1);
    EntityScoresAt(entities, m.entity);
  }

  /**
   * Every result of `find_matches` on a merged list is a name within PED
   * delta of the prefix whose count reached the threshold, reported with
   * its entity, its PED and the entity's score.
   */
  lemma FindMatchesSound(ps: seq<Posting>, prefix: string, delta: int, q: nat, normNames: seq<string>,
                         nameEnt: seq<int>, entities: seq<seq<string>>, i: nat)
    requires |nameEnt| == |normNames| && EntsIn(nameEnt, |entities|)
    requires IdsIn(ps, |normNames|) && StrictlyAscending(ps)
    requires AfterMerge(ps, prefix, delta, q, normNames, nameEnt, entities).Ok?
    requires i < |AfterMerge(ps, prefix, delta, q, normNames, nameEnt, entities).value|
    ensures var m := AfterMerge(ps, prefix, delta, q, normNames, nameEnt, entities).value[i];
            && 1 <= m.nameId <= |normNames| && m.entity == nameEnt[m.nameId - 1]
            && m.ped == Ped(prefix, normNames[m.nameId - 1]) <= delta
            && SumFor(m.nameId, ps) >= Threshold(prefix, q, delta)
            && ScoreOf(entities, m.entity) == Ok(m.score)
  {
    var threshold, peds, scores := Threshold(prefix, q, delta), PedsOf(prefix, normNames), EntityScores(entities);
    PipelineSoundFor(ps, threshold, delta, peds, nameEnt, scores, i);
    var m := AfterMerge(ps, prefix, delta, q, normNames, nameEnt, entities).value[i];
    FromNameOf(m, ps, threshold, delta, prefix, normNames, nameEnt, entities);
  }

  /** The results have strictly ascending entities: one result per entity. */
  lemma FindMatchesAscending(ps: seq<Posting>, prefix: string, delta: int, q: nat, normNames: seq<string>,
                             nameEnt: seq<int>, entities: seq<seq<string>>)
    requires |nameEnt| == |normNames| && EntsIn(nameEnt, |entities|) && IdsIn(ps, |normNames|)
    requires AfterMerge(ps, prefix, delta, q, normNames, nameEnt, entities).Ok?
    ensures AscendingMatches(AfterMerge(ps, prefix, delta, q, normNames, nameEnt, entities).value)
  {
    PipelineAscending(ps, Threshold(prefix, q, delta), delta, PedsOf(prefix, normNames), nameEnt, EntityScores(entities));
  }

  /**
   * When |x| > q*delta, a name within PED delta of the prefix is on the
   * merged list with a count reaching the threshold.
   */
  lemma MergeHolds(ps: seq<Posting>, prefix: string, delta: int, q: nat, normNames: seq<string>, n: int)
    requires q >= 1 && MergeOf(ps, prefix, q, normNames) && Threshold(prefix, q, delta) >= 1
    requires 1 <= n <= |normNames| && Ped(prefix, normNames[n - 1]) <= delta
    ensures n in Ids(ps) && SumFor(n, ps) >= Threshold(prefix, q, delta)
  {
    MergeBound(ps, prefix, q, normNames, n);
    MulMonotone(q, Ped(prefix, normNames[n - 1]), delta);
    if n !in Ids(ps) {
      SumForAbsent(n, ps);
    }
  }

  /**
   * No false negatives when |x| > q*delta: every name within PED delta of
   * the prefix has its entity among the results, with a PED no larger
   * than the name's. With soundness, the result of an entity carries the
   * least PED of its names.
   */
  lemma FindMatchesComplete(ps: seq<Posting>, prefix: string, delta: int, q: nat, normNames: seq<string>,
                            nameEnt: seq<int>, entities: seq<seq<string>>, n: int)
    requires q >= 1 && |nameEnt| == |normNames| && EntsIn(nameEnt, |entities|) && MergeOf(ps, prefix, q, normNames)
    requires AfterMerge(ps, prefix, delta, q, normNames, nameEnt, entities).Ok?
    requires Threshold(prefix, q, delta) >= 1
    requires 1 <= n <= |normNames| && Ped(prefix, normNames[n - 1]) <= delta
    ensures var ms := AfterMerge(ps, prefix, delta, q, normNames, nameEnt, entities).value;
            exists i :: 0 <= i < |ms| && ms[i].entity == nameEnt[n - 1] && ms[i].ped <= Ped(prefix, normNames[n - 1])
  {
    MergeHolds(ps, prefix, delta, q, normNames, n);
    var peds, scores := PedsOf(prefix, normNames), EntityScores(entities);
    PedsOfAt(prefix, normNames, n - 1);
    var i := PipelineBestFor(ps, Threshold(prefix, q, delta), delta, peds, nameEnt, scores, n);
  }

  /**
   * `find_matches` raises only when a name passing both checks belongs to
   * an entity whose score field is missing or not an integer.
   */
  lemma FindMatchesFailWitness(ps: seq<Posting>, prefix: string, delta: int, q: nat, normNames: seq<string>,
                               nameEnt: seq<int>, entities: seq<seq<string>>) returns (n: int)
    requires |nameEnt| == |normNames| && EntsIn(nameEnt, |entities|)
    requires IdsIn(ps, |normNames|) && StrictlyAscending(ps)
    requires AfterMerge(ps, prefix, delta, q, normNames, nameEnt, entities).Fail?
    ensures 1 <= n <= |normNames| && n in Ids(ps) && SumFor(n, ps) >= Threshold(prefix, q, delta)
    ensures Ped(prefix, normNames[n - 1]) <= delta && ScoreOf(entities, nameEnt[n - 1]).Fail?
  {
    var peds, scores := PedsOf(prefix, normNames), EntityScores(entities);
    n := PipelineFailWitnessFor(ps, Threshold(prefix, q, delta), delta, peds, nameEnt, scores);
    TablesAt(prefix, normNames, nameEnt, entities, n);
  }

  /**
   * A name passing both checks whose entity's score field is missing or
   * not an integer makes `find_matches` raise.
   */
  lemma FindMatchesFailAt(ps: seq<Posting>, prefix: string, delta: int, q: nat, normNames: seq<string>,
                          nameEnt: seq<int>, entities: seq<seq<string>>, n: int)
    requires |nameEnt| == |normNames| && EntsIn(nameEnt, |entities|)
    requires IdsIn(ps, |normNames|) && StrictlyAscending(ps)
    requires 1 <= n <= |normNames| && n in Ids(ps) && SumFor(n, ps) >= Threshold(prefix, q, delta)
    requires Ped(prefix, normNames[n - 1]) <= delta && ScoreOf(entities, nameEnt[n - 1]).Fail?
    ensures AfterMerge(ps, prefix, delta, q, normNames, nameEnt, entities).Fail?
  {
    var peds, scores := PedsOf(prefix, normNames), EntityScores(entities);
    TablesAt(prefix, normNames, nameEnt, entities, n);
    PipelineFailFor(ps, Threshold(prefix, q, delta), delta, peds, nameEnt, scores, n);
  }

  /**
   * With a threshold of 0 or less the count filter would let every name
   * through, but a name that shares no padded q-gram with the prefix is
   * never merged: "cb" is within PED 1 of "ab" and, with q = 3 and
   * delta = 1 (threshold -1), `find_matches` returns nothing.
   */
  lemma FindMatchesMisses()
    ensures Threshold("ab", 3, 1) == -1 && Ped("ab", "cb") <= 1
    ensures FindMatchesSpec("ab", 1, 3, ["cb"], [1], [["cb", "1", "x"]]) == Ok([])
  {
    PedCbAb();
    NoListsForAb();
  }

  /** The index of the single name "cb" has no list for a padded 3-gram of "ab". */
  lemma NoListsForAb()
    ensures PrefixLists("ab", 3, ["cb"]) == []
  {
    var gy, gx := PaddedGrams("cb", 3), PaddedGrams("ab", 3);
    NoSharedGram();
    assert NameDocs(["cb"], 3) == [gy];
    assert IndexOf([gy]) == AddAll(map[], gy, 1);
    var idx := NameIndex(["cb"], 3);
    forall g ensures g in idx <==> g in gy {
      AddAllGet(map[], gy, 1, g);
    }
    assert gx[1] !in idx && gx[0] !in idx;
    assert gx[..1][..0] == [] && gx[..|gx| - 1] == gx[..1];
    assert GramLists(idx, gx[..1]) == [];
  }

  /** "cb" is within prefix edit distance 1 of "ab". */
  lemma PedCbAb()
    ensures Ped("ab", "cb") <= 1
  {
    PedAtMost("ab", "cb", 2);
    assert "cb"[..2] == "cb";
    assert Ed("ab", "cb") <= Ed("a", "c") + 1;
  }

  /** "cb" and "ab" have no padded 3-gram in common. */
  lemma NoSharedGram()
    ensures forall g :: g in PaddedGrams("cb", 3) ==> g !in PaddedGrams("ab", 3)
  {
    assert Pad(3) == "$$";
    var gy, gx := PaddedGrams("cb", 3), PaddedGrams("ab", 3);
    assert gy[0] == "$$cb"[0..3] == "$$c";
    assert gy[1] == "$$cb"[1..4] == "$cb";
    assert gx[0] == "$$ab"[0..3] == "$$a";
    assert gx[1] == "$$ab"[1..4] == "$ab";
    assert gy == ["$$c", "$cb"] && gx == ["$$a", "$ab"];
  }

}
