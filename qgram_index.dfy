/**
 * The q-gram index for fuzzy prefix search over entity names (the mature
 * version): one inverted list of (name id, count) per padded q-gram,
 * candidate selection by merged count, verification by prefix edit
 * distance, one result per entity and ranking by (PED, -score).
 */
module QGramIndex {
  import opened Seqs
  import opened Outcomes
  import opened Strings
  import opened Sorting
  import opened Postings
  import opened PrefixEditDistance
  import opened QGramFilter
  import opened QGramSearch

  /** `normalize`: lower-case, then keep the alphanumeric characters in order. */
  function Normalize(word: string): (r: string)
    ensures |r| <= |word|
    ensures forall i :: 0 <= i < |r| ==> IsAlnum(r[i]) && !IsAsciiUpper(r[i])
  {
    Filter(LowerStr(word), IsAlnum)
  }

  lemma LowerStrFixed(s: string)
    requires forall i :: 0 <= i < |s| ==> !IsAsciiUpper(s[i])
    ensures LowerStr(s) == s
  {
  }

  /** Normalising twice is normalising once. */
  lemma NormalizeIdempotent(word: string)
    ensures Normalize(Normalize(word)) == Normalize(word)
  {
    var r := Normalize(word);
    LowerStrFixed(r);
    FilterAll(r, IsAlnum);
  }

  lemma NormalizeExampleFilter(a: string, b: string, c: string, d: string)
    requires a == "frei" && b == ", " && c == "burg" && d == " !?!"
    ensures Filter(a + b + c + d, IsAlnum) == a + c
  {
    assert forall i :: 0 <= i < |a| ==> IsAlnum(a[i]);
    assert forall i :: 0 <= i < |b| ==> !IsAlnum(b[i]);
    assert forall i :: 0 <= i < |c| ==> IsAlnum(c[i]);
    assert forall i :: 0 <= i < |d| ==> !IsAlnum(d[i]);
    FilterKeepDrop(a, b, c, d, IsAlnum);
  }

  /** The doctest: "Frei, burG !?!" normalises to "freiburg". */
  lemma NormalizeExample(word: string)
    requires word == "Frei, burG !?!"
    ensures Normalize(word) == "freiburg"
  {
    var a, b, c, d := "frei", ", ", "burg", " !?!";
    assert LowerStr(word) == a + b + c + d;
    NormalizeExampleFilter(a, b, c, d);
  }

  /** One name of an entity: the 1-based entity id and the name as written. */
  datatype NameRecord = NameRecord(entity: int, name: string)

  /** The names of one entity line: the first field, then the synonyms when used. */
  function LineNames(line: string, useSyns: bool): Result<seq<string>>
  {
    var parts := Split(line, '\t');
    if !useSyns then Ok([parts[0]])
    else if |parts| < 6 then Fail(IndexError)
    else Ok([parts[0]] + Split(parts[5], ';'))
  }

  /** The number of leading lines whose names can be read. */
  function GoodLines(body: seq<string>, useSyns: bool): (k: nat)
    ensures k <= |body|
    ensures forall i :: 0 <= i < k ==> LineNames(body[i], useSyns).Ok?
    ensures k < |body| ==> LineNames(body[k], useSyns).Fail?
  {
    if body == [] || LineNames(body[0], useSyns).Fail? then 0
    else 1 + GoodLines(body[1..], useSyns)
  }

  /** Every line of `body` has its names. */
  predicate AllGood(body: seq<string>, useSyns: bool)
  {
    forall i :: 0 <= i < |body| ==> LineNames(body[i], useSyns).Ok?
  }

  lemma GoodLinesNext(body: seq<string>, useSyns: bool, i: nat)
    requires i <= GoodLines(body, useSyns) && i < |body| && LineNames(body[i], useSyns).Ok?
    ensures i + 1 <= GoodLines(body, useSyns)
  {
  }

  lemma GoodLinesStop(body: seq<string>, useSyns: bool, i: nat)
    requires i <= GoodLines(body, useSyns) && i < |body| && LineNames(body[i], useSyns).Fail?
    ensures i == GoodLines(body, useSyns)
  {
  }

  /** The name records of `body`, entity ids 1, 2, ... by line. */
  function Records(body: seq<string>, useSyns: bool): seq<NameRecord>
    requires AllGood(body, useSyns)
  {
    if body == [] then []
    else
      var names := LineNames(Last(body), useSyns).value;
      Records(body[..|body| - 1], useSyns) + RecordsOf(|body|, names)
  }

  function RecordsOf(entity: int, names: seq<string>): (r: seq<NameRecord>)
    ensures |r| == |names|
    ensures forall i :: 0 <= i < |r| ==> r[i] == NameRecord(entity, names[i])
  {
    seq(|names|, i requires 0 <= i < |names| => NameRecord(entity, names[i]))
  }

  function EntityIds(recs: seq<NameRecord>): (r: seq<int>)
    ensures |r| == |recs|
  {
    if recs == [] then [] else EntityIds(recs[..|recs| - 1]) + [Last(recs).entity]
  }

  function RawNames(recs: seq<NameRecord>): (r: seq<string>)
    ensures |r| == |recs|
  {
    if recs == [] then [] else RawNames(recs[..|recs| - 1]) + [Last(recs).name]
  }

  function NormNames(recs: seq<NameRecord>): (r: seq<string>)
    ensures |r| == |recs|
  {
    if recs == [] then [] else NormNames(recs[..|recs| - 1]) + [Normalize(Last(recs).name)]
  }

  function SplitLines(body: seq<string>): (r: seq<seq<string>>)
    ensures |r| == |body|
  {
    if body == [] then [] else SplitLines(body[..|body| - 1]) + [Split(Last(body), '\t')]
  }

  /** The lines after the header line. */
  function Body(lines: seq<string>): seq<string>
  {
    if lines == [] then [] else lines[1..]
  }

  lemma SplitLinesStep(body: seq<string>, i: nat)
    requires i < |body|
    ensures SplitLines(body[..i + 1]) == SplitLines(body[..i]) + [Split(body[i], '\t')]
  {
    assert body[..i + 1][..i] == body[..i];
  }

  /** The names of line `i` extend the records of the lines before it. */
  lemma RecordsStep(body: seq<string>, i: nat, useSyns: bool)
    requires i < |body| && AllGood(body[..i], useSyns) && LineNames(body[i], useSyns).Ok?
    ensures AllGood(body[..i + 1], useSyns)
    ensures Records(body[..i + 1], useSyns)
         == Records(body[..i], useSyns) + RecordsOf(i + 1, LineNames(body[i], useSyns).value)
  {
    assert body[..i + 1][..i] == body[..i];
    assert forall j :: 0 <= j < i ==> body[..i + 1][j] == body[..i][j];
  }

  /** One more name record extends each projection by one element. */
  lemma RecordsAppend(recs: seq<NameRecord>, r: NameRecord, q: nat)
    requires q >= 1
    ensures EntityIds(recs + [r]) == EntityIds(recs) + [r.entity]
    ensures RawNames(recs + [r]) == RawNames(recs) + [r.name]
    ensures NormNames(recs + [r]) == NormNames(recs) + [Normalize(r.name)]
    ensures NameDocs(NormNames(recs + [r]), q) == NameDocs(NormNames(recs), q) + [PaddedGrams(Normalize(r.name), q)]
  {
    assert (recs + [r])[..|recs|] == recs;
    var ns := NormNames(recs) + [Normalize(r.name)];
    assert ns[..|ns| - 1] == NormNames(recs);
  }

  lemma RecordsOfStep(entity: int, names: seq<string>, j: nat)
    requires j < |names|
    ensures RecordsOf(entity, names[..j + 1]) == RecordsOf(entity, names[..j]) + [NameRecord(entity, names[j])]
  {
  }

  /** The records read so far grow by one record per name. */
  lemma RecordsOfSnoc(recs0: seq<NameRecord>, entity: int, names: seq<string>, j: nat)
    requires j < |names|
    ensures recs0 + RecordsOf(entity, names[..j + 1])
            == (recs0 + RecordsOf(entity, names[..j])) + [NameRecord(entity, names[j])]
  {
    RecordsOfStep(entity, names, j);
    AppendAssoc(recs0, RecordsOf(entity, names[..j]), [NameRecord(entity, names[j])]);
  }

  /** Entity ids stay within the lines read so far. */
  lemma {:induction false} EntityIdsBound(recs: seq<NameRecord>, more: seq<NameRecord>, e: int)
    requires forall j :: 0 <= j < |recs| ==> 1 <= EntityIds(recs)[j] <= e - 1
    requires forall j :: 0 <= j < |more| ==> more[j].entity == e
    requires e >= 1
    ensures forall j :: 0 <= j < |recs + more| ==> 1 <= EntityIds(recs + more)[j] <= e
    decreases |more|
  {
    if more != [] {
      var init := more[..|more| - 1];
      EntityIdsBound(recs, init, e);
      assert recs + more == (recs + init) + [Last(more)];
      RecordsAppend(recs + init, Last(more), 1);
      var ids := EntityIds(recs + more);
      assert ids == EntityIds(recs + init) + [e];
      assert forall j :: 0 <= j < |ids| ==> 1 <= ids[j] <= e by {
        forall j | 0 <= j < |ids|
          ensures 1 <= ids[j] <= e
        {
          if j < |ids| - 1 {
            assert ids[j] == EntityIds(recs + init)[j];
          }
        }
      }
    } else {
      assert recs + more == recs;
    }
  }

  lemma {:induction false} RecordsEntities(body: seq<string>, useSyns: bool)
    requires AllGood(body, useSyns)
    ensures forall j :: 0 <= j < |Records(body, useSyns)| ==> 1 <= EntityIds(Records(body, useSyns))[j] <= |body|
  {
    if body != [] {
      var init := body[..|body| - 1];
      assert AllGood(init, useSyns) by {
        assert forall j :: 0 <= j < |init| ==> init[j] == body[j];
      }
      RecordsEntities(init, useSyns);
      EntityIdsBound(Records(init, useSyns), RecordsOf(|body|, LineNames(Last(body), useSyns).value), |body|);
    }
  }

  lemma IndexOfStep(docs: seq<seq<string>>, d: seq<string>)
    ensures IndexOf(docs + [d]) == AddAll(IndexOf(docs), d, |docs| + 1)
  {
    assert (docs + [d])[..|docs|] == docs;
  }

  /**
   * What `build_from_file` leaves behind on the body lines: the fields of
   * every line read (the failing line included), the names of the lines
   * before the first line without names, and IndexError when there is
   * such a line.
   */
  ghost predicate Built(body: seq<string>, useSyns: bool, entities: seq<seq<string>>, nameEnt: seq<int>,
                        names: seq<string>, normNames: seq<string>, error: Option<Error>)
  {
    var k := GoodLines(body, useSyns);
    var recs := Records(body[..k], useSyns);
    && entities == SplitLines(body[..if k < |body| then k + 1 else k])
    && nameEnt == EntityIds(recs) && names == RawNames(recs) && normNames == NormNames(recs)
    && error == (if k < |body| then Some(IndexError) else None)
  }

  /** Every line has its names: nothing fails and every line is read. */
  lemma BuiltWhole(body: seq<string>, useSyns: bool, entities: seq<seq<string>>, nameEnt: seq<int>,
                   names: seq<string>, normNames: seq<string>)
    requires GoodLines(body, useSyns) == |body| && AllGood(body[..|body|], useSyns)
    requires entities == SplitLines(body[..|body|])
    requires var recs := Records(body[..|body|], useSyns);
      nameEnt == EntityIds(recs) && names == RawNames(recs) && normNames == NormNames(recs)
    ensures AllGood(body, useSyns) && Built(body, useSyns, entities, nameEnt, names, normNames, None)
  {
    assert body[..|body|] == body;
  }

  /** The first line without names ends the build with IndexError. */
  lemma BuiltStop(body: seq<string>, useSyns: bool, i: nat, entities: seq<seq<string>>, nameEnt: seq<int>,
                  names: seq<string>, normNames: seq<string>)
    requires i == GoodLines(body, useSyns) < |body| && AllGood(body[..i], useSyns)
    requires entities == SplitLines(body[..i + 1])
    requires var recs := Records(body[..i], useSyns);
      nameEnt == EntityIds(recs) && names == RawNames(recs) && normNames == NormNames(recs)
    ensures Built(body, useSyns, entities, nameEnt, names, normNames, Some(IndexError))
  {
  }

  class QGramIndex {
    const q: nat
    const useSyns: bool
    var idx: Index
    var entities: seq<seq<string>>
    var normNames: seq<string>
    var names: seq<string>
    var nameEnt: seq<int>
    var pedCalcs: Option<(int, int)>
    var merges: Option<(int, int)>

    /** The names, their entities and the lists agree. */
    predicate Valid()
      reads this`idx, this`entities, this`normNames, this`names, this`nameEnt
    {
      q >= 1
      && |nameEnt| == |normNames| == |names|
      && (forall i :: 0 <= i < |nameEnt| ==> 1 <= nameEnt[i] <= |entities|)
      && idx == IndexOf(NameDocs(normNames, q))
    }

    constructor (q: nat, useSyns: bool)
      requires q >= 1
      ensures this.q == q && this.useSyns == useSyns
      ensures idx == map[] && entities == [] && normNames == [] && names == [] && nameEnt == []
      ensures pedCalcs == None && merges == None
      ensures Valid()
    {
      this.q := q;
      this.useSyns := useSyns;
      idx := map[];
      entities := [];
      normNames := [];
      names := [];
      nameEnt := [];
      pedCalcs := None;
      merges := None;
    }

    /** `compute_qgrams`: the padded q-grams of `word`, one per character. */
    method ComputeQGrams(word: string) returns (grams: seq<string>)
      requires q >= 1
      ensures grams == PaddedGrams(word, q)
    {
      grams := [];
      var padded := Pad(q) + word;
      for i := 0 to |word|
        invariant grams == PaddedGrams(word, q)[..i]
      {
        grams := grams + [padded[i..i + q]];
      }
    }

    /** The gram loop of `build_from_file`: one more occurrence per q-gram for name `nameId`. */
    method AddQGrams(grams: seq<string>, nameId: int)
      modifies this`idx
      ensures idx == AddAll(old(idx), grams, nameId)
    {
      for j := 0 to |grams|
        invariant idx == AddAll(old(idx), grams[..j], nameId)
      {
        var g := grams[j];
        if g !in idx {
          idx := idx[g := []];
        }
        var l := idx[g];
        if |l| > 0 && l[|l| - 1].id == nameId {
          idx := idx[g := l[..|l| - 1] + [Posting(nameId, l[|l| - 1].count + 1)]];
        } else {
          idx := idx[g := l + [Posting(nameId, 1)]];
        }
        assert grams[..j + 1][..j] == grams[..j];
      }
      assert grams[..|grams|] == grams;
    }

    /** The cached names and the lists are those of the name records `recs`. */
    ghost predicate Indexes(recs: seq<NameRecord>)
      reads this
    {
      q >= 1
      && nameEnt == EntityIds(recs) && names == RawNames(recs) && normNames == NormNames(recs)
      && idx == IndexOf(NameDocs(normNames, q))
    }

    /** The body of the name loop of `build_from_file` for one name. */
    method AddName(entId: int, n: string, nameId0: int, ghost recs0: seq<NameRecord>)
      returns (nameId: int)
      requires Indexes(recs0) && nameId0 == |normNames|
      modifies this`idx, this`nameEnt, this`normNames, this`names
      ensures Indexes(recs0 + [NameRecord(entId, n)]) && nameId == |normNames|
    {
      RecordsAppend(recs0, NameRecord(entId, n), q);
      IndexOfStep(NameDocs(normNames, q), PaddedGrams(Normalize(n), q));
      nameId := nameId0 + 1;
      nameEnt := nameEnt + [entId];
      var normed := Normalize(n);
      normNames := normNames + [normed];
      names := names + [n];
      var grams := ComputeQGrams(normed);
      AddQGrams(grams, nameId);
    }

    /**
     * The name loop of `build_from_file` for entity `entId`: each name is
     * numbered on from `nameId0`, cached with its normalised form and
     * indexed by its padded q-grams.
     */
    method AddNames(entId: int, lineNames: seq<string>, nameId0: int, ghost recs0: seq<NameRecord>)
      returns (nameId: int)
      requires Indexes(recs0) && nameId0 == |normNames|
      modifies this`idx, this`nameEnt, this`normNames, this`names
      ensures Indexes(recs0 + RecordsOf(entId, lineNames)) && nameId == |normNames|
    {
      nameId := nameId0;
      assert recs0 + RecordsOf(entId, lineNames[..0]) == recs0;
      for j := 0 to |lineNames|
        invariant Indexes(recs0 + RecordsOf(entId, lineNames[..j])) && nameId == |normNames|
      {
        ghost var before := recs0 + RecordsOf(entId, lineNames[..j]);
        RecordsOfSnoc(recs0, entId, lineNames, j);
        nameId := AddName(entId, lineNames[j], nameId, before);
      }
      assert lineNames[..|lineNames|] == lineNames;
    }

    /**
     * The body of the line loop of `build_from_file` for entity `entId`:
     * the fields are cached, then the names are read; a line without a
     * sixth field raises IndexError when synonyms are used.
     */
    method AddEntity(line: string, entId: int, nameId0: int, ghost recs0: seq<NameRecord>)
      returns (nameId: int, error: Option<Error>)
      requires Indexes(recs0) && nameId0 == |normNames|
      modifies this`idx, this`entities, this`nameEnt, this`normNames, this`names
      ensures entities == old(entities) + [Split(line, '\t')]
      ensures LineNames(line, useSyns).Fail? ==> error == Some(IndexError) && Indexes(recs0)
      ensures LineNames(line, useSyns).Ok? ==>
                error == None && nameId == |normNames|
                && Indexes(recs0 + RecordsOf(entId, LineNames(line, useSyns).value))
    {
      var parts := Split(line, '\t');
      entities := entities + [parts];
      var synonyms := [];
      if useSyns {
        if |parts| < 6 {
          return nameId0, Some(IndexError);
        }
        synonyms := Split(parts[5], ';');
      }
      var lineNames := [parts[0]] + synonyms;
      assert LineNames(line, useSyns) == Ok(lineNames) by {
        if !useSyns {
          assert lineNames == [parts[0]];
        }
      }
      nameId := AddNames(entId, lineNames, nameId0, recs0);
      error := None;
    }

    /**
     * `build_from_file` on the lines of the file: the first line is
     * skipped and line i (from 1) is entity i. Reading stops at the first
     * line whose names cannot be read, after its fields were cached.
     */
    method BuildFromLines(lines: seq<string>) returns (error: Option<Error>)
      requires Valid()
      requires idx == map[] && entities == [] && normNames == [] && names == [] && nameEnt == []
      modifies this`idx, this`entities, this`nameEnt, this`normNames, this`names
      ensures Valid()
      ensures Built(Body(lines), useSyns, entities, nameEnt, names, normNames, error)
    {
      var body := Body(lines);
      var nameId := 0;
      error := None;
      ReadNone(body);
      for i := 0 to |body|
        invariant ReadUpTo(body, i) && nameId == |normNames| && error == None
      {
        nameId, error := BuildStep(body, i, nameId);
        if error.Some? {
          return;
        }
      }
      ReadAll(body);
    }

    lemma ReadNone(body: seq<string>)
      requires Valid()
      requires idx == map[] && entities == [] && normNames == [] && names == [] && nameEnt == []
      ensures ReadUpTo(body, 0)
    {
      assert body[..0] == [];
    }

    /** Once every line is read the index is complete. */
    lemma ReadAll(body: seq<string>)
      requires ReadUpTo(body, |body|)
      ensures Valid() && Built(body, useSyns, entities, nameEnt, names, normNames, None)
    {
      BuiltWhole(body, useSyns, entities, nameEnt, names, normNames);
      RecordsEntities(body, useSyns);
      assert body[..|body|] == body;
    }

    /** The lines before `i` are read: their fields cached and their names indexed. */
    ghost predicate ReadUpTo(body: seq<string>, i: nat)
      reads this
    {
      && i <= |body| && i <= GoodLines(body, useSyns) && AllGood(body[..i], useSyns)
      && entities == SplitLines(body[..i])
      && Indexes(Records(body[..i], useSyns))
    }

    /** One pass of the line loop: line `i` read, or the error that ends the build. */
    method BuildStep(body: seq<string>, i: nat, nameId0: int) returns (nameId: int, error: Option<Error>)
      requires i < |body| && ReadUpTo(body, i) && nameId0 == |normNames|
      modifies this`idx, this`entities, this`nameEnt, this`normNames, this`names
      ensures error == None ==> ReadUpTo(body, i + 1) && nameId == |normNames|
      ensures error != None ==> Valid() && Built(body, useSyns, entities, nameEnt, names, normNames, error)
    {
      SplitLinesStep(body, i);
      nameId, error := AddEntity(body[i], i + 1, nameId0, Records(body[..i], useSyns));
      if error.Some? {
        StepStop(body, i);
        return;
      }
      StepNext(body, i);
    }

    /** A line without names ends the build with the lines before it indexed. */
    lemma StepStop(body: seq<string>, i: nat)
      requires i < |body| && i <= GoodLines(body, useSyns) && AllGood(body[..i], useSyns)
      requires LineNames(body[i], useSyns).Fail?
      requires entities == SplitLines(body[..i + 1]) && Indexes(Records(body[..i], useSyns))
      ensures Valid() && Built(body, useSyns, entities, nameEnt, names, normNames, Some(IndexError))
    {
      GoodLinesStop(body, useSyns, i);
      BuiltStop(body, useSyns, i, entities, nameEnt, names, normNames);
      StopValid(body, i);
    }

    lemma StopValid(body: seq<string>, i: nat)
      requires i < |body| && AllGood(body[..i], useSyns)
      requires entities == SplitLines(body[..i + 1]) && Indexes(Records(body[..i], useSyns))
      ensures Valid()
    {
      RecordsEntities(body[..i], useSyns);
    }

    /** A line with names extends the lines read by one. */
    lemma StepNext(body: seq<string>, i: nat)
      requires i < |body| && i <= GoodLines(body, useSyns) && AllGood(body[..i], useSyns)
      requires LineNames(body[i], useSyns).Ok?
      requires entities == SplitLines(body[..i + 1])
      requires Indexes(Records(body[..i], useSyns) + RecordsOf(i + 1, LineNames(body[i], useSyns).value))
      ensures ReadUpTo(body, i + 1)
    {
      RecordsStep(body, i, useSyns);
      GoodLinesNext(body, useSyns, i);
    }
      /**
     * `merge_lists`: the postings of all lists, in sorted order, folded
     * into one posting per id; `merges` records the number of lists and
     * of postings read.
     */
    method MergeLists(lists: seq<seq<Posting>>) returns (merged: seq<Posting>)
      modifies this`merges
      ensures merged == Merged(lists)
      ensures merges == Some((|lists|, |Flatten(lists)|))
    {
      var c;
      merged, c := MergeSorted(SortBy(Flatten(lists), PostingKey));
      SortedLength(Flatten(lists));
      merges := Some((|lists|, c));
    }

    /**
     * `find_matches(prefix, delta)`: the merged lists of the prefix's
     * q-grams, the names whose count reaches |prefix| - q*delta verified
     * by PED, then one result per entity (the least PED) with the
     * entity's score. `ped_calcs` records the PED computations and the
     * merged postings.
     */
    method FindMatches(prefix: string, delta: int) returns (r: Result<seq<Match>>)
      requires Valid()
      modifies this`merges, this`pedCalcs
      ensures Valid()
      ensures r == FindMatchesSpec(prefix, delta, q, normNames, nameEnt, entities)
      ensures merges == Some((|PrefixLists(prefix, q, normNames)|, |Flatten(PrefixLists(prefix, q, normNames))|))
      ensures pedCalcs == Some((PedCalls(PrefixMerged(prefix, q, normNames), Threshold(prefix, q, delta)),
                                |PrefixMerged(prefix, q, normNames)|))
    {
      var nn, ne, ents := normNames, nameEnt, entities;
      var grams := ComputeQGrams(prefix);
      var lists := CollectLists(idx, grams);
      assert lists == PrefixLists(prefix, q, nn);
      PrefixMergedIds(prefix, q, nn);
      var merged := MergeLists(lists);
      var c, tot;
      r, c, tot := RankMerged(merged, prefix, delta, q, nn, ne, ents);
      pedCalcs := Some((c, tot));
      assert nn == normNames && ne == nameEnt && ents == entities;
    }
  }

  /**
   * The rest of `find_matches` once the lists are merged: verify the
   * postings, sort the candidates, keep one per entity and read the scores;
   * also the number of PED computations and of merged postings.
   */
  method RankMerged(merged: seq<Posting>, prefix: string, delta: int, q: nat, normNames: seq<string>,
                    nameEnt: seq<int>, entities: seq<seq<string>>)
    returns (r: Result<seq<Match>>, c: nat, tot: nat)
    requires |nameEnt| == |normNames| && EntsIn(nameEnt, |entities|) && IdsIn(merged, |normNames|)
    ensures r == AfterMerge(merged, prefix, delta, q, normNames, nameEnt, entities)
    ensures c == PedCalls(merged, Threshold(prefix, q, delta)) && tot == |merged|
  {
    var threshold := |prefix| - q * delta;
    var matches;
    matches, c, tot := VerifyCandidates(merged, prefix, threshold, delta, normNames, nameEnt);
    var sorted := SortBy(matches, CandidateKey);
    KeptEntities(merged, threshold, delta, PedsOf(prefix, normNames), nameEnt, |entities|);
    assert FirstPerEntity(sorted) == Kept(merged, threshold, delta, PedsOf(prefix, normNames), nameEnt);
    r := ScoreFirstPerEntity(sorted, entities);
  }

  /** The lists of `find_matches`: the list of every q-gram of the prefix that has one. */
  method CollectLists(idx: Index, grams: seq<string>) returns (lists: seq<seq<Posting>>)
    ensures lists == GramLists(idx, grams)
  {
    lists := [];
    for k := 0 to |grams|
      invariant lists == GramLists(idx, grams[..k])
    {
      assert grams[..k + 1][..k] == grams[..k];
      if grams[k] in idx {
        lists := lists + [idx[grams[k]]];
      }
    }
    assert grams[..|grams|] == grams;
  }

  /**
   * The verification loop of `find_matches`: a posting whose count
   * reaches the threshold costs one PED computation, and its name is a
   * candidate when the PED is at most delta. Returns the candidates, the
   * number of PED computations and the number of postings.
   */
  method VerifyCandidates(merged: seq<Posting>, prefix: string, threshold: int, delta: int,
                          normNames: seq<string>, nameEnt: seq<int>)
    returns (matches: seq<Candidate>, c: nat, tot: nat)
    requires |nameEnt| == |normNames| && IdsIn(merged, |normNames|)
    ensures matches == Candidates(merged, threshold, delta, PedsOf(prefix, normNames), nameEnt)
    ensures c == PedCalls(merged, threshold) && tot == |merged|
  {
    ghost var peds := PedsOf(prefix, normNames);
    matches, c, tot := [], 0, 0;
    for k := 0 to |merged|
      invariant tot == k && c == PedCalls(merged[..k], threshold)
      invariant IdsIn(merged[..k], |normNames|)
      invariant matches == Candidates(merged[..k], threshold, delta, peds, nameEnt)
    {
      matches, c := VerifyNext(merged, k, prefix, threshold, delta, normNames, nameEnt, matches, c);
      tot := tot + 1;
    }
    assert merged[..|merged|] == merged;
  }

  /** One posting of the verification loop. */
  method VerifyNext(merged: seq<Posting>, k: nat, prefix: string, threshold: int, delta: int,
                    normNames: seq<string>, nameEnt: seq<int>, matches0: seq<Candidate>, c0: nat)
    returns (matches: seq<Candidate>, c: nat)
    requires k < |merged| && |nameEnt| == |normNames| && IdsIn(merged, |normNames|)
    requires c0 == PedCalls(merged[..k], threshold)
    requires matches0 == Candidates(merged[..k], threshold, delta, PedsOf(prefix, normNames), nameEnt)
    ensures IdsIn(merged[..k + 1], |normNames|)
    ensures c == PedCalls(merged[..k + 1], threshold)
    ensures matches == Candidates(merged[..k + 1], threshold, delta, PedsOf(prefix, normNames), nameEnt)
  {
    ghost var peds := PedsOf(prefix, normNames);
    PrefixStep(merged, k, threshold, delta, peds, nameEnt);
    var pair := merged[k];
    matches, c := matches0, c0;
    if pair.count >= threshold {
      PedsOfAt(prefix, normNames, pair.id - 1);
      var pedist := Ped(prefix, normNames[pair.id - 1]);
      assert pedist == peds[pair.id - 1];
      c := c + 1;
      if pedist <= delta {
        matches := matches + [Candidate(nameEnt[pair.id - 1], pedist, pair.id)];
      }
    }
  }

  lemma ToMatchesStep(cs: seq<Candidate>, c: Candidate, scores: seq<Result<int>>)
    requires EntitiesIn(cs, |scores|) && 1 <= c.entity <= |scores|
    ensures EntitiesIn(cs + [c], |scores|)
    ensures ToMatches(cs + [c], scores)
         == match ToMatches(cs, scores)
            case Fail(e) => Fail(e)
            case Ok(ms) =>
              match scores[c.entity - 1]
              case Fail(e) => Fail(e)
              case Ok(s) => Ok(ms + [Match(c.entity, c.ped, s, c.nameId)])
  {
    assert (cs + [c])[..|cs|] == cs;
  }

  /** The kept candidates of a prefix have their entities in range when all kept ones do. */
  lemma KeptPrefixIn(sorted: seq<Candidate>, k: nat, n: int)
    requires k <= |sorted| && EntitiesIn(FirstPerEntity(sorted), n)
    ensures EntitiesIn(FirstPerEntity(sorted[..k]), n)
  {
    FirstPerEntityPrefix(sorted, k);
    var kept := FirstPerEntity(sorted);
    var pre := FirstPerEntity(sorted[..k]);
    assert forall i :: 0 <= i < |pre| ==> pre[i] == kept[i];
  }

  lemma FirstPerEntityStep(sorted: seq<Candidate>, k: nat)
    requires k < |sorted|
    ensures var r := FirstPerEntity(sorted[..k]);
      FirstPerEntity(sorted[..k + 1])
        == if r == [] || Last(r).entity != sorted[k].entity then r + [sorted[k]] else r
  {
    assert sorted[..k + 1][..k] == sorted[..k];
  }

  /**
   * The result loop of `find_matches` over the sorted candidates: the
   * first candidate of each entity is reported with the entity's score
   * `int(entities[e - 1][1])`, and a malformed score field raises.
   */
  method ScoreFirstPerEntity(sorted: seq<Candidate>, entities: seq<seq<string>>) returns (r: Result<seq<Match>>)
    requires EntitiesIn(FirstPerEntity(sorted), |entities|)
    ensures r == ToMatches(FirstPerEntity(sorted), EntityScores(entities))
  {
    ghost var scores := EntityScores(entities);
    var ret: seq<Match> := [];
    for k := 0 to |sorted|
      invariant EntitiesIn(FirstPerEntity(sorted[..k]), |scores|)
      invariant ToMatches(FirstPerEntity(sorted[..k]), scores) == Ok(ret)
    {
      var next := ScoreAt(sorted, entities, k, ret);
      if next.Fail? {
        return next;
      }
      ret := next.value;
    }
    assert sorted[..|sorted|] == sorted;
    r := Ok(ret);
  }

  /** The pass of the result loop over candidate `k`, on the kept candidates of the prefixes. */
  method ScoreAt(sorted: seq<Candidate>, entities: seq<seq<string>>, k: nat, ret: seq<Match>)
    returns (next: Result<seq<Match>>)
    requires k < |sorted| && EntitiesIn(FirstPerEntity(sorted), |entities|)
    requires EntitiesIn(FirstPerEntity(sorted[..k]), |entities|)
    requires ToMatches(FirstPerEntity(sorted[..k]), EntityScores(entities)) == Ok(ret)
    ensures next.Ok? ==> EntitiesIn(FirstPerEntity(sorted[..k + 1]), |entities|)
    ensures next.Ok? ==> ToMatches(FirstPerEntity(sorted[..k + 1]), EntityScores(entities)) == next
    ensures next.Fail? ==> next == ToMatches(FirstPerEntity(sorted), EntityScores(entities))
  {
    KeptStep(sorted, k, |entities|);
    next := ScoreNext(sorted[k], entities, ret, FirstPerEntity(sorted[..k]), FirstPerEntity(sorted[..k + 1]));
    if next.Fail? {
      ScoreFail(sorted, k + 1, EntityScores(entities));
    }
  }

  /** The kept candidates after one more candidate, and their entities in range. */
  lemma KeptStep(sorted: seq<Candidate>, k: nat, n: int)
    requires k < |sorted| && EntitiesIn(FirstPerEntity(sorted), n)
    ensures EntitiesIn(FirstPerEntity(sorted[..k + 1]), n)
    ensures FirstPerEntity(sorted[..k + 1])
      == if FirstPerEntity(sorted[..k]) == [] || Last(FirstPerEntity(sorted[..k])).entity != sorted[k].entity
         then FirstPerEntity(sorted[..k]) + [sorted[k]] else FirstPerEntity(sorted[..k])
  {
    KeptPrefixIn(sorted, k + 1, n);
    FirstPerEntityStep(sorted, k);
  }

  /**
   * One pass of the result loop, on the kept candidates `before` the pass
   * and `after` it: candidate `c` is reported with its entity's score when
   * its entity differs from the last reported one, and a malformed score
   * is the error of the whole result.
   */
  method ScoreNext(c: Candidate, entities: seq<seq<string>>, ret: seq<Match>,
                   ghost before: seq<Candidate>, ghost after: seq<Candidate>)
    returns (next: Result<seq<Match>>)
    requires after == if before == [] || Last(before).entity != c.entity then before + [c] else before
    requires EntitiesIn(before, |entities|) && EntitiesIn(after, |entities|)
    requires ToMatches(before, EntityScores(entities)) == Ok(ret)
    ensures next == ToMatches(after, EntityScores(entities))
  {
    if |ret| == 0 || ret[|ret| - 1].entity != c.entity {
      KeptNew(before, after, c, EntityScores(entities), ret);
      next := ScoreNew(c, entities, ret, before);
    } else {
      KeptSkip(before, after, c, EntityScores(entities), ret);
      next := Ok(ret);
    }
  }

  /** A kept candidate is reported with its entity's score, or the score's error is the result. */
  method ScoreNew(c: Candidate, entities: seq<seq<string>>, ret: seq<Match>, ghost before: seq<Candidate>)
    returns (next: Result<seq<Match>>)
    requires 1 <= c.entity <= |entities| && EntitiesIn(before, |entities|)
    requires ToMatches(before, EntityScores(entities)) == Ok(ret)
    ensures EntitiesIn(before + [c], |entities|)
    ensures next == ToMatches(before + [c], EntityScores(entities))
  {
    ghost var scores := EntityScores(entities);
    EntityScoresAt(entities, c.entity);
    var score := FieldScore(entities[c.entity - 1]);
    if score.Fail? {
      AppendFail(before, c, scores, ret, score.error);
      return Fail(score.error);
    }
    AppendOk(before, c, scores, ret, score.value);
    next := Ok(ret + [Match(c.entity, c.ped, score.value, c.nameId)]);
  }

  /** A candidate whose entity differs from the last reported one is kept. */
  lemma KeptNew(before: seq<Candidate>, after: seq<Candidate>, c: Candidate, scores: seq<Result<int>>, ret: seq<Match>)
    requires after == if before == [] || Last(before).entity != c.entity then before + [c] else before
    requires EntitiesIn(before, |scores|) && EntitiesIn(after, |scores|)
    requires ToMatches(before, scores) == Ok(ret)
    requires ret == [] || Last(ret).entity != c.entity
    ensures after == before + [c] && 1 <= c.entity <= |scores|
  {
    LastMatch(before, scores, ret);
    assert after[|before|] == c;
  }

  /** A candidate of the entity last reported is skipped. */
  lemma KeptSkip(before: seq<Candidate>, after: seq<Candidate>, c: Candidate, scores: seq<Result<int>>, ret: seq<Match>)
    requires after == if before == [] || Last(before).entity != c.entity then before + [c] else before
    requires EntitiesIn(before, |scores|) && ToMatches(before, scores) == Ok(ret)
    requires ret != [] && Last(ret).entity == c.entity
    ensures after == before
  {
    LastMatch(before, scores, ret);
  }

  lemma AppendOk(cs: seq<Candidate>, c: Candidate, scores: seq<Result<int>>, ret: seq<Match>, v: int)
    requires EntitiesIn(cs, |scores|) && ToMatches(cs, scores) == Ok(ret)
    requires 1 <= c.entity <= |scores| && scores[c.entity - 1] == Ok(v)
    ensures EntitiesIn(cs + [c], |scores|)
    ensures ToMatches(cs + [c], scores) == Ok(ret + [Match(c.entity, c.ped, v, c.nameId)])
  {
    ToMatchesStep(cs, c, scores);
  }

  lemma AppendFail(cs: seq<Candidate>, c: Candidate, scores: seq<Result<int>>, ret: seq<Match>, e: Error)
    requires EntitiesIn(cs, |scores|) && ToMatches(cs, scores) == Ok(ret)
    requires 1 <= c.entity <= |scores| && scores[c.entity - 1] == Fail(e)
    ensures EntitiesIn(cs + [c], |scores|)
    ensures ToMatches(cs + [c], scores) == Fail(e)
  {
    ToMatchesStep(cs, c, scores);
  }

  lemma LastMatch(cs: seq<Candidate>, scores: seq<Result<int>>, ret: seq<Match>)
    requires EntitiesIn(cs, |scores|) && ToMatches(cs, scores) == Ok(ret)
    ensures |ret| == |cs| && (ret != [] ==> Last(ret).entity == Last(cs).entity)
  {
    ToMatchesOk(cs, scores);
    if ret != [] {
      assert Scored(ret[|ret| - 1], cs[|cs| - 1], scores);
    }
  }

  /** A failing prefix of the kept candidates makes the whole result fail the same way. */
  lemma ScoreFail(sorted: seq<Candidate>, k: nat, scores: seq<Result<int>>)
    requires k <= |sorted| && EntitiesIn(FirstPerEntity(sorted), |scores|)
    requires EntitiesIn(FirstPerEntity(sorted[..k]), |scores|)
    requires ToMatches(FirstPerEntity(sorted[..k]), scores).Fail?
    ensures ToMatches(FirstPerEntity(sorted), scores) == ToMatches(FirstPerEntity(sorted[..k]), scores)
  {
    FirstPerEntityPrefix(sorted, k);
    var kept := FirstPerEntity(sorted);
    ToMatchesFailPrefix(kept, scores, |FirstPerEntity(sorted[..k])|);
  }

  lemma SortedLength(ps: seq<Posting>)
    ensures |SortBy(ps, PostingKey)| == |ps|
  {
    assert |multiset(SortBy(ps, PostingKey))| == |multiset(ps)|;
  }

  lemma FoldStep(all: seq<Posting>, k: nat)
    requires k < |all|
    ensures var m := Fold(all[..k]);
      Fold(all[..k + 1])
        == if m != [] && Last(m).id == all[k].id then m[..|m| - 1] + [Posting(all[k].id, Last(m).count + all[k].count)]
           else m + [all[k]]
  {
    assert all[..k + 1][..k] == all[..k];
  }

  /**
   * The loop of `merge_lists` over the sorted postings: a posting with
   * the id of the last merged one adds its count to it, any other is
   * appended. Returns the merged list and the number of postings read.
   */
  method MergeSorted(all: seq<Posting>) returns (merged: seq<Posting>, c: nat)
    ensures merged == Fold(all) && c == |all|
  {
    merged, c := [], 0;
    for k := 0 to |all|
      invariant merged == Fold(all[..k]) && c == k
    {
      FoldStep(all, k);
      var el := all[k];
      c := c + 1;
      if |merged| != 0 && merged[|merged| - 1].id == el.id {
        merged := merged[..|merged| - 1] + [Posting(el.id, merged[|merged| - 1].count + el.count)];
      } else {
        merged := merged + [el];
      }
    }
    assert all[..|all|] == all;
  }

  /** The q-grams of "freiburg" for q = 3, as in the doctest of `compute_qgrams`. */
  lemma ComputeQGramsExample()
    ensures PaddedGrams("freiburg", 3) == ["$$f", "$fr", "fre", "rei", "eib", "ibu", "bur", "urg"]
  {
    var w := Pad(3) + "freiburg";
    assert Pad(3) == "$$";
    assert w == "$$freiburg";
    var g := PaddedGrams("freiburg", 3);
    assert g[0] == w[0..3] == "$$f";
    assert g[1] == w[1..4] == "$fr";
    assert g[2] == w[2..5] == "fre";
    assert g[3] == w[3..6] == "rei";
    assert g[4] == w[4..7] == "eib";
    assert g[5] == w[5..8] == "ibu";
    assert g[6] == w[6..9] == "bur";
    assert g[7] == w[7..10] == "urg";
  }

  /** `rank_matches` sorts by PED ascending, then by score descending. */
  function RankKey(m: Match): Key
  {
    (m.ped, -m.score)
  }

  /** `rank_matches(matches)`: `sorted(matches, key=lambda post: (post[1], -post[2]))`. */
  function RankMatches(ms: seq<Match>): (r: seq<Match>)
    ensures multiset(r) == multiset(ms)
    ensures forall i, j :: 0 <= i < j < |r| ==>
              r[i].ped < r[j].ped || (r[i].ped == r[j].ped && r[i].score >= r[j].score)
  {
    var r := SortBy(ms, RankKey);
    assert forall i, j :: 0 <= i < j < |r| ==> KeyLe(RankKey(r[i]), RankKey(r[j]));
    r
  }

  /** Matches with the same PED and score keep their relative order. */
  lemma RankMatchesStable(ms: seq<Match>, m: Match)
    ensures Filter(RankMatches(ms), SameKey(RankKey, m)) == Filter(ms, SameKey(RankKey, m))
  {
    SortStable(ms, RankKey, m);
  }

  lemma RankExampleTwo(a: Match, b: Match)
    requires a == Match(1, 0, 3, 0) && b == Match(2, 1, 2, 0)
    ensures SortBy([a, b], RankKey) == [a, b]
  {
    Take4(a, b, b, b);
    assert SortBy([a], RankKey) == [a];
  }

  lemma RankExampleFirst(a: Match, b: Match, c: Match)
    requires a == Match(1, 0, 3, 0) && b == Match(2, 1, 2, 0) && c == Match(2, 1, 3, 0)
    ensures SortBy([a, b, c], RankKey) == [a, c, b]
  {
    Take4(a, b, c, c);
    RankExampleTwo(a, b);
    assert Insert([a], c, RankKey) == [a, c];
  }

  lemma RankExampleLast(a: Match, b: Match, c: Match, d: Match)
    requires a == Match(1, 0, 3, 0) && b == Match(2, 1, 2, 0) && c == Match(2, 1, 3, 0) && d == Match(1, 0, 2, 0)
    requires SortedBy([a, c, b], RankKey)
    ensures Insert([a, c, b], d, RankKey) == [a, d, c, b]
  {
    Take4(a, c, b, b);
    RankInsertTwo(a, c, d);
  }

  lemma RankInsertTwo(a: Match, c: Match, d: Match)
    requires a == Match(1, 0, 3, 0) && c == Match(2, 1, 3, 0) && d == Match(1, 0, 2, 0)
    ensures SortedBy([a, c], RankKey) && Insert([a, c], d, RankKey) == [a, d, c]
  {
    Take4(a, c, c, c);
    assert Insert([a], d, RankKey) == [a, d];
  }

  /** The doctest of `rank_matches`, with name id 0 for the triples it ranks. */
  lemma RankMatchesExample()
    ensures RankMatches([Match(1, 0, 3, 0), Match(2, 1, 2, 0), Match(2, 1, 3, 0), Match(1, 0, 2, 0)])
         == [Match(1, 0, 3, 0), Match(1, 0, 2, 0), Match(2, 1, 3, 0), Match(2, 1, 2, 0)]
  {
    var a, b, c, d := Match(1, 0, 3, 0), Match(2, 1, 2, 0), Match(2, 1, 3, 0), Match(1, 0, 2, 0);
    Take4(a, b, c, d);
    RankExampleFirst(a, b, c);
    RankExampleLast(a, b, c, d);
  }
}
