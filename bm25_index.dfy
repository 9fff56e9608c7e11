/**
 * The vector-space inverted index: a first pass that counts term
 * frequencies and document lengths, a second pass that replaces every
 * frequency by a score, the sparse term-document triplets built from the
 * scored lists, and the keyword rows a query starts from.
 *
 * The dictionary of lists is modelled by a map together with `terms`,
 * the order in which its keys were inserted. The score formula (BM25 with
 * its parameters b and k) is a parameter `bm25(tf, dl, avdl, df, n)`.
 */
module Bm25Index {
  import opened Seqs
  import opened Outcomes
  import opened Strings
  import opened Postings
  import opened RecordLists

  /** A score from (tf, document length, average document length, df, number of documents). */
  type Scorer = (int, int, real, int, int) -> real

  /** The number of words of each document. */
  function Lengths(docs: seq<seq<string>>): (ls: seq<int>)
    ensures |ls| == |docs|
  {
    if docs == [] then [] else Lengths(docs[..|docs| - 1]) + [|Last(docs)|]
  }

  lemma {:induction false} LengthsAt(docs: seq<seq<string>>, i: nat)
    requires i < |docs|
    ensures Lengths(docs)[i] == |docs[i]|
  {
    var init := docs[..|docs| - 1];
    assert Lengths(docs) == Lengths(init) + [|Last(docs)|];
    if i < |init| {
      LengthsAt(init, i);
      assert init[i] == docs[i];
    }
  }

  function SumInts(s: seq<int>): int
  {
    if s == [] then 0 else SumInts(s[..|s| - 1]) + Last(s)
  }

  /** Every id on every list is a document number 1..n. */
  predicate IdsWithin(m: Index, n: int)
  {
    forall w, i :: w in m && 0 <= i < |m[w]| ==> 1 <= m[w][i].id <= n
  }

  /**
   * The second pass on one list: each posting keeps its document id and
   * gets the score of its tf, its document's length and the list length.
   */
  function Rescore(l: seq<Posting>, lengths: seq<int>, avdl: real, n: int, bm25: Scorer): (r: seq<ScoredPosting>)
    requires forall i :: 0 <= i < |l| ==> 1 <= l[i].id <= |lengths|
    ensures |r| == |l| && forall i :: 0 <= i < |l| ==> r[i].id == l[i].id
  {
    seq(|l|, i requires 0 <= i < |l| => ScoredPosting(l[i].id, bm25(l[i].count, lengths[l[i].id - 1], avdl, |l|, n)))
  }

  /** The second pass on every list. */
  function Rescored(m: Index, lengths: seq<int>, avdl: real, n: int, bm25: Scorer): (r: map<string, seq<ScoredPosting>>)
    requires IdsWithin(m, |lengths|)
    ensures forall w :: w in r <==> w in m
  {
    map w | w in m :: Rescore(m[w], lengths, avdl, n, bm25)
  }

  /** Sum over `ts` of the tf that document `d` has on the list of each. */
  function TfTotal(d: int, ts: seq<string>, m: Index): int
  {
    if ts == [] then 0 else TfTotal(d, ts[..|ts| - 1], m) + SumFor(d, Get(m, Last(ts)))
  }

  /** Sum over `ts` of the occurrences of each in `doc`. */
  function CountTotal(ts: seq<string>, doc: seq<string>): int
  {
    if ts == [] then 0 else CountTotal(ts[..|ts| - 1], doc) + Count(Last(ts), doc)
  }

  lemma {:induction false} CountTotalSnoc(ts: seq<string>, doc: seq<string>, x: string)
    ensures CountTotal(ts, doc + [x]) == CountTotal(ts, doc) + Count(x, ts)
  {
    if ts != [] {
      CountTotalSnoc(ts[..|ts| - 1], doc, x);
      CountAppend(Last(ts), doc, [x]);
    }
  }

  /** Over distinct words covering the document, the occurrences add up to its length. */
  lemma {:induction false} CountTotalCovers(ts: seq<string>, doc: seq<string>)
    requires Distinct(ts) && forall x :: x in doc ==> x in ts
    ensures CountTotal(ts, doc) == |doc|
  {
    if doc == [] {
      CountTotalEmpty(ts);
    } else {
      var init := doc[..|doc| - 1];
      assert doc == init + [Last(doc)];
      CountTotalCovers(ts, init);
      CountTotalSnoc(ts, init, Last(doc));
      CountDistinct(Last(doc), ts);
    }
  }

  lemma {:induction false} CountTotalEmpty(ts: seq<string>)
    ensures CountTotal(ts, []) == 0
  {
    if ts != [] {
      CountTotalEmpty(ts[..|ts| - 1]);
    }
  }

  lemma {:induction false} TfTotalCounts(d: int, ts: seq<string>, docs: seq<seq<string>>)
    requires 1 <= d <= |docs|
    ensures TfTotal(d, ts, IndexOf(docs)) == CountTotal(ts, docs[d - 1])
  {
    if ts != [] {
      TfTotalCounts(d, ts[..|ts| - 1], docs);
      IndexOfSpec(docs);
      ListForCount(Last(ts), docs, d);
    }
  }

  /**
   * After the first pass, the tf values of a document over all lists add
   * up to its length.
   */
  lemma DocumentLength(lines: seq<string>, d: int)
    requires 1 <= d <= |lines|
    ensures var docs := LineWords(lines);
      TfTotal(d, FirstSeen(Flatten(docs)), IndexOf(docs)) == Lengths(docs)[d - 1]
  {
    var docs := LineWords(lines);
    var ts := FirstSeen(Flatten(docs));
    FirstSeenElements(Flatten(docs));
    forall x | x in docs[d - 1]
      ensures x in ts
    {
      FlattenMember(docs, d - 1, x);
    }
    TfTotalCounts(d, ts, docs);
    CountTotalCovers(ts, docs[d - 1]);
    LengthsAt(docs, d - 1);
  }

  /**
   * After the first pass, each list is strictly ascending by document id
   * and the tf of a posting is the number of occurrences of the word in
   * that document.
   */
  lemma FirstPassCounts(lines: seq<string>, w: string)
    ensures var docs := LineWords(lines);
      var l := Get(IndexOf(docs), w);
      StrictlyAscending(l)
      && forall i :: 0 <= i < |l| ==> 1 <= l[i].id <= |lines| && l[i].count == Count(w, docs[l[i].id - 1])
  {
    var docs := LineWords(lines);
    IndexOfSpec(docs);
    var l := ListFor(w, docs);
    forall i | 0 <= i < |l|
      ensures l[i].count == Count(w, docs[l[i].id - 1])
    {
      ListForCount(w, docs, l[i].id);
      SumForAscending(l[i].id, l, i);
    }
  }

  /** After the first pass, a document is on the list of a word exactly when its line holds the word. */
  lemma FirstPassMember(lines: seq<string>, w: string, d: int)
    ensures d in Ids(Get(IndexOf(LineWords(lines)), w)) <==> 1 <= d <= |lines| && w in LetterWords(lines[d - 1])
  {
    var docs := LineWords(lines);
    IndexOfSpec(docs);
    var l := ListFor(w, docs);
    assert Get(IndexOf(docs), w) == l;
    ListForCount(w, docs, d);
    if d in Ids(l) {
      var i := IdsIndex(l, d);
      SumForAscending(d, l, i);
    } else {
      SumForAbsent(d, l);
    }
  }

  lemma {:induction false} IdsIndex(ps: seq<Posting>, d: int) returns (i: nat)
    requires d in Ids(ps)
    ensures i < |ps| && ps[i].id == d
  {
    var init := ps[..|ps| - 1];
    IdsLast(ps);
    if Last(ps).id == d {
      i := |ps| - 1;
    } else {
      i := IdsIndex(init, d);
    }
  }

  /** One entry (row, col, val) of the sparse term-document matrix. */
  datatype Triplet = Triplet(row: int, col: int, val: real)

  /** A sparse matrix of the given shape holding `entries`. */
  datatype SparseMatrix = SparseMatrix(rows: int, cols: int, entries: seq<Triplet>)

  /** The triplets of one list in row `row`: one per non-zero score, in column id - 1. */
  function RowTriplets(row: int, l: seq<ScoredPosting>): seq<Triplet>
  {
    if l == [] then []
    else
      var p := Last(l);
      RowTriplets(row, l[..|l| - 1]) + if p.score != 0.0 then [Triplet(row, p.id - 1, p.score)] else []
  }

  /** The triplets of the lists of `terms`, term i in row i. */
  function AllTriplets(terms: seq<string>, lists: map<string, seq<ScoredPosting>>): seq<Triplet>
    requires forall t :: t in terms ==> t in lists
  {
    if terms == [] then []
    else AllTriplets(terms[..|terms| - 1], lists) + RowTriplets(|terms| - 1, lists[Last(terms)])
  }

  /** The larger of `acc` and every id of `l`. */
  function ListMax(acc: int, l: seq<ScoredPosting>): int
  {
    if l == [] then acc
    else
      var m := ListMax(acc, l[..|l| - 1]);
      if m < Last(l).id then Last(l).id else m
  }

  /** The largest id on the lists of `terms`, or 0. */
  function MaxId(terms: seq<string>, lists: map<string, seq<ScoredPosting>>): int
    requires forall t :: t in terms ==> t in lists
  {
    if terms == [] then 0 else ListMax(MaxId(terms[..|terms| - 1], lists), lists[Last(terms)])
  }

  /**
   * `preprocessing_vsm` (without normalisation): one row per term, as many
   * columns as the largest id, and the triplets of all lists. No term
   * leaves the row counter unbound; a negative column index is refused.
   */
  function MatrixOf(terms: seq<string>, lists: map<string, seq<ScoredPosting>>): Result<SparseMatrix>
    requires forall t :: t in terms ==> t in lists
  {
    var entries := AllTriplets(terms, lists);
    if terms == [] then Fail(UnboundLocalError)
    else if exists k :: 0 <= k < |entries| && entries[k].col < 0 then Fail(ValueError)
    else Ok(SparseMatrix(|terms|, MaxId(terms, lists), entries))
  }

  lemma {:induction false} RowTripletsMember(row: int, l: seq<ScoredPosting>, t: Triplet)
    ensures t in RowTriplets(row, l) <==>
              t.row == row && t.val != 0.0 && ScoredPosting(t.col + 1, t.val) in l
  {
    if l != [] {
      var init := l[..|l| - 1];
      RowTripletsMember(row, init, t);
      assert l == init + [Last(l)];
      if t.row == row && t.val != 0.0 && ScoredPosting(t.col + 1, t.val) == Last(l) {
        assert Last(l).score != 0.0;
      }
    }
  }

  lemma {:induction false} ListMaxBound(acc: int, l: seq<ScoredPosting>, p: ScoredPosting)
    ensures acc <= ListMax(acc, l)
    ensures p in l ==> p.id <= ListMax(acc, l)
  {
    if l != [] {
      ListMaxBound(acc, l[..|l| - 1], p);
      assert p in l ==> p in l[..|l| - 1] || p == Last(l);
    }
  }

  lemma {:induction false} AllTripletsMember(terms: seq<string>, lists: map<string, seq<ScoredPosting>>, t: Triplet)
    requires forall s :: s in terms ==> s in lists
    ensures t in AllTriplets(terms, lists) <==>
              0 <= t.row < |terms| && t.val != 0.0 && ScoredPosting(t.col + 1, t.val) in lists[terms[t.row]]
    ensures t in AllTriplets(terms, lists) ==> t.col + 1 <= MaxId(terms, lists)
    ensures 0 <= MaxId(terms, lists)
  {
    if terms != [] {
      var init := terms[..|terms| - 1];
      var row := |terms| - 1;
      AllTripletsMember(init, lists, t);
      RowTripletsMember(row, lists[Last(terms)], t);
      ListMaxBound(MaxId(init, lists), lists[Last(terms)], ScoredPosting(t.col + 1, t.val));
      if 0 <= t.row < |init| {
        assert init[t.row] == terms[t.row];
      }
    }
  }

  /**
   * The matrix, when it is built, has one row per term and a column for
   * every id; its entries are exactly the non-zero scored postings, each
   * in the row of its term and the column of its id minus one.
   */
  lemma MatrixEntries(terms: seq<string>, lists: map<string, seq<ScoredPosting>>, t: Triplet)
    requires forall s :: s in terms ==> s in lists
    requires MatrixOf(terms, lists).Ok?
    ensures var mx := MatrixOf(terms, lists).value;
      mx.rows == |terms| && mx.cols >= 0
      && (t in mx.entries <==> 0 <= t.row < |terms| && t.val != 0.0 && ScoredPosting(t.col + 1, t.val) in lists[terms[t.row]])
      && (t in mx.entries ==> 0 <= t.col < mx.cols)
  {
    AllTripletsMember(terms, lists, t);
  }

  /** The rows of the terms equal to `kw` (each key of the dictionary is compared). */
  function RowsFor(kw: string, terms: seq<string>): seq<int>
  {
    if terms == [] then [] else RowsFor(kw, terms[..|terms| - 1]) + if Last(terms) == kw then [|terms| - 1] else []
  }

  /** The query rows: for every keyword in turn, the rows of its term. */
  function KeywordRows(keywords: seq<string>, terms: seq<string>): seq<int>
  {
    if keywords == [] then [] else KeywordRows(keywords[..|keywords| - 1], terms) + RowsFor(Last(keywords), terms)
  }

  lemma {:induction false} RowsForMember(kw: string, terms: seq<string>, r: int)
    ensures r in RowsFor(kw, terms) <==> 0 <= r < |terms| && terms[r] == kw
  {
    if terms != [] {
      var init := terms[..|terms| - 1];
      RowsForMember(kw, init, r);
      if 0 <= r < |init| {
        assert init[r] == terms[r];
      }
    }
  }

  /** A row is queried exactly when its term is one of the keywords. */
  lemma {:induction false} KeywordRowsMember(keywords: seq<string>, terms: seq<string>, r: int)
    ensures r in KeywordRows(keywords, terms) <==> 0 <= r < |terms| && terms[r] in keywords
  {
    if keywords != [] {
      var init := keywords[..|keywords| - 1];
      KeywordRowsMember(init, terms, r);
      RowsForMember(Last(keywords), terms, r);
      assert keywords == init + [Last(keywords)];
    }
  }

  /** No row is queried exactly when no keyword is a term. */
  lemma KeywordRowsEmpty(keywords: seq<string>, terms: seq<string>)
    ensures KeywordRows(keywords, terms) == [] <==> forall k :: 0 <= k < |keywords| ==> keywords[k] !in terms
  {
    if KeywordRows(keywords, terms) != [] {
      var r := KeywordRows(keywords, terms)[0];
      KeywordRowsMember(keywords, terms, r);
    }
    if exists k :: 0 <= k < |keywords| && keywords[k] in terms {
      var k :| 0 <= k < |keywords| && keywords[k] in terms;
      var r :| 0 <= r < |terms| && terms[r] == keywords[k];
      KeywordRowsMember(keywords, terms, r);
    }
  }

  /** How `process_query_vsm` starts: no result at all, or the rows of the query vector. */
  datatype VsmQuery = NoResults | QueryVector(rows: seq<int>)

  function QueryStart(keywords: seq<string>, terms: seq<string>): VsmQuery
  {
    if keywords == [] then NoResults
    else
      var rows := KeywordRows(keywords, terms);
      if rows == [] then NoResults else QueryVector(rows)
  }

  /** The early returns: no keyword, or no keyword that is a term, gives no result. */
  lemma QueryStartSpec(keywords: seq<string>, terms: seq<string>)
    ensures QueryStart(keywords, terms) == NoResults <==>
              keywords == [] || forall k :: 0 <= k < |keywords| ==> keywords[k] !in terms
    ensures QueryStart(keywords, terms).QueryVector? ==>
              forall r :: r in QueryStart(keywords, terms).rows <==> 0 <= r < |terms| && terms[r] in keywords
  {
    KeywordRowsEmpty(keywords, terms);
    forall r
      ensures r in KeywordRows(keywords, terms) <==> 0 <= r < |terms| && terms[r] in keywords
    {
      KeywordRowsMember(keywords, terms, r);
    }
  }

  class InvertedIndex {
    /** The first pass's lists, with a tf per posting. */
    var tfLists: Index
    /** The keys of the lists in insertion order. */
    var terms: seq<string>
    /** The second pass's lists, with a score per posting. */
    var invertedLists: map<string, seq<ScoredPosting>>
    var docs: seq<seq<string>>
    var docLengths: seq<int>
    var tdMatrix: Option<SparseMatrix>

    constructor ()
      ensures tfLists == map[] && terms == [] && invertedLists == map[]
      ensures docs == [] && docLengths == [] && tdMatrix == None
    {
      tfLists := map[];
      terms := [];
      invertedLists := map[];
      docs := [];
      docLengths := [];
      tdMatrix := None;
    }

    /**
     * `build_from_file` on a new index: the first pass numbers the lines
     * 1, 2, ..., counts every word occurrence on its list and records each
     * line's fields and length; without any line the average length
     * divides by zero; otherwise the second pass scores every posting.
     */
    method BuildFromLines(lines: seq<string>, bm25: Scorer) returns (err: Option<Error>)
      requires tfLists == map[] && terms == [] && invertedLists == map[] && docs == [] && docLengths == []
      modifies this`tfLists, this`terms, this`docs, this`docLengths, this`invertedLists
      ensures docs == Records(lines) && docLengths == Lengths(LineWords(lines))
      ensures tfLists == IndexOf(LineWords(lines)) && terms == FirstSeen(Flatten(LineWords(lines)))
      ensures IdsWithin(tfLists, |docLengths|)
      ensures err == if lines == [] then Some(ZeroDivisionError) else None
      ensures invertedLists == if lines == [] then map[]
                               else Rescored(tfLists, docLengths, (SumInts(docLengths) as real) / (|lines| as real), |lines|, bm25)
    {
      FirstPass(lines);
      var n := |docs|;
      if n == 0 {
        return Some(ZeroDivisionError);
      }
      var avdl := (SumInts(docLengths) as real) / (n as real);
      SecondPass(avdl, n, bm25);
      return None;
    }

    /** The first pass: one document per line, numbered from 1. */
    method FirstPass(lines: seq<string>)
      requires tfLists == map[] && terms == [] && docs == [] && docLengths == []
      modifies this`tfLists, this`terms, this`docs, this`docLengths
      ensures docs == Records(lines) && docLengths == Lengths(LineWords(lines))
      ensures tfLists == IndexOf(LineWords(lines)) && terms == FirstSeen(Flatten(LineWords(lines)))
      ensures IdsWithin(tfLists, |docLengths|)
      ensures forall g :: g in tfLists <==> g in terms
    {
      var docId := 0;
      for n := 0 to |lines|
        invariant docId == n
        invariant docs == Records(lines[..n]) && docLengths == Lengths(LineWords(lines[..n]))
        invariant tfLists == IndexOf(LineWords(lines[..n])) && terms == FirstSeen(Flatten(LineWords(lines[..n])))
        invariant forall g :: g in tfLists <==> g in Flatten(LineWords(lines[..n]))
        invariant NonEmptyLists(tfLists)
      {
        var line := Strip(lines[n]);
        docId := docId + 1;
        ghost var seen := Flatten(LineWords(lines[..n]));
        LetterWordsStrip(lines[n]);
        var dl := AddDocument(LetterWords(line), docId, seen);
        docs := docs + [Split(line, '\t')];
        docLengths := docLengths + [dl];
        FirstPassStep(lines, n);
      }
      assert lines[..|lines|] == lines;
      FirstPassIds(LineWords(lines));
      FirstSeenElements(Flatten(LineWords(lines)));
    }

    /** The words of document `docId` go onto their lists; the result is the document length. */
    method AddDocument(words: seq<string>, docId: int, ghost seen: seq<string>) returns (dl: int)
      requires NonEmptyLists(tfLists) && terms == FirstSeen(seen)
      requires forall g :: g in tfLists <==> g in seen
      modifies this`tfLists, this`terms
      ensures NonEmptyLists(tfLists) && terms == FirstSeen(seen + words)
      ensures forall g :: g in tfLists <==> g in seen + words
      ensures tfLists == AddAll(old(tfLists), words, docId)
      ensures dl == |words|
    {
      dl := 0;
      assert seen + words[..0] == seen;
      for k := 0 to |words|
        invariant dl == k
        invariant NonEmptyLists(tfLists) && terms == FirstSeen(seen + words[..k])
        invariant forall g :: g in tfLists <==> g in seen + words[..k]
        invariant tfLists == AddAll(old(tfLists), words[..k], docId)
      {
        ScanStep(seen, words, k);
        AddAllStep(old(tfLists), words, k, docId);
        dl := dl + 1;
        ghost var before, termsBefore := tfLists, terms;
        AddWord(words[k], docId);
        KeysStep(before, tfLists, seen + words[..k], words[k], docId, termsBefore, terms);
      }
      assert words[..|words|] == words;
    }

    /**
     * One occurrence of `word` in document `docId`: a new word gets the list
     * [(docId, 1)] and goes to the end of the terms; otherwise the count of
     * the last posting goes up when it is for `docId`, or (docId, 1) is appended.
     */
    method AddWord(word: string, docId: int)
      requires NonEmptyLists(tfLists)
      modifies this`tfLists, this`terms
      ensures NonEmptyLists(tfLists)
      ensures tfLists == AddOccurrence(old(tfLists), word, docId)
      ensures terms == if word in old(tfLists) then old(terms) else old(terms) + [word]
    {
      if word !in tfLists {
        assert Get(tfLists, word) + [Posting(docId, 1)] == [Posting(docId, 1)];
        tfLists := tfLists[word := [Posting(docId, 1)]];
        terms := terms + [word];
        return;
      }
      var last := Last(tfLists[word]);
      if last.id == docId {
        tfLists := tfLists[word := tfLists[word][..|tfLists[word]| - 1] + [Posting(docId, last.count + 1)]];
      } else {
        tfLists := tfLists[word := tfLists[word] + [Posting(docId, 1)]];
      }
    }

    /** The second pass: every list of the first pass, in key order, is scored posting by posting. */
    method SecondPass(avdl: real, n: int, bm25: Scorer)
      requires IdsWithin(tfLists, |docLengths|)
      requires forall g :: g in tfLists <==> g in terms
      modifies this`invertedLists
      ensures invertedLists == Rescored(tfLists, docLengths, avdl, n, bm25)
    {
      invertedLists := map[];
      for t := 0 to |terms|
        invariant forall g :: g in invertedLists <==> g in terms[..t]
        invariant forall g :: g in invertedLists ==> invertedLists[g] == Rescore(tfLists[g], docLengths, avdl, n, bm25)
      {
        var word := terms[t];
        var invertedList := tfLists[word];
        var scored: seq<ScoredPosting> := [];
        for i := 0 to |invertedList|
          invariant scored == Rescore(invertedList, docLengths, avdl, n, bm25)[..i]
        {
          var docId, tf := invertedList[i].id, invertedList[i].count;
          var dl := docLengths[docId - 1];
          var df := |tfLists[word]|;
          scored := scored + [ScoredPosting(docId, bm25(tf, dl, avdl, df, n))];
        }
        invertedLists := invertedLists[word := scored];
        assert terms[..t + 1] == terms[..t] + [word];
      }
      assert terms[..|terms|] == terms;
    }

    /**
     * `preprocessing_vsm()`: the triplets of all lists, row by row in key
     * order, and the number of columns as the largest id seen.
     */
    method PreprocessingVsm() returns (err: Option<Error>)
      requires forall t :: t in terms ==> t in invertedLists
      modifies this`tdMatrix
      ensures MatrixOf(terms, invertedLists).Ok? ==> err == None && tdMatrix == Some(MatrixOf(terms, invertedLists).value)
      ensures MatrixOf(terms, invertedLists).Fail? ==> err == Some(MatrixOf(terms, invertedLists).error) && tdMatrix == old(tdMatrix)
    {
      var val: seq<real> := [];
      var row: seq<int> := [];
      var col: seq<int> := [];
      var numCol := 0;
      for recordsId := 0 to |terms|
        invariant |val| == |row| == |col|
        invariant Zip(val, row, col) == AllTriplets(terms[..recordsId], invertedLists)
        invariant numCol == MaxId(terms[..recordsId], invertedLists)
        invariant tdMatrix == old(tdMatrix)
      {
        var bms := invertedLists[terms[recordsId]];
        ghost var before := Zip(val, row, col);
        ghost var max0 := numCol;
        for i := 0 to |bms|
          invariant |val| == |row| == |col|
          invariant Zip(val, row, col) == before + RowTriplets(recordsId, bms[..i])
          invariant numCol == ListMax(max0, bms[..i])
          invariant tdMatrix == old(tdMatrix)
        {
          var docId, bm25 := bms[i].id, bms[i].score;
          ListStep(recordsId, bms, i, max0);
          if numCol < docId {
            numCol := docId;
          }
          if bm25 != 0.0 {
            ZipSnoc(val, row, col, bm25, recordsId, docId - 1);
            val := val + [bm25];
            row := row + [recordsId];
            col := col + [docId - 1];
          }
        }
        assert bms[..|bms|] == bms;
        TermStep(terms, recordsId, invertedLists);
      }
      assert terms[..|terms|] == terms;
      var entries := Zip(val, row, col);
      assert entries == AllTriplets(terms, invertedLists);
      if |terms| == 0 {
        return Some(UnboundLocalError);
      }
      if exists k :: 0 <= k < |entries| && entries[k].col < 0 {
        var k :| 0 <= k < |entries| && entries[k].col < 0;
        assert MatrixOf(terms, invertedLists) == Fail(ValueError);
        return Some(ValueError);
      }
      tdMatrix := Some(SparseMatrix(|terms|, numCol, entries));
      return None;
    }

    /**
     * `process_query_vsm(keywords)` up to the query vector: no keyword
     * gives no result, then every (keyword, key) pair that matches adds
     * the key's row, and no row gives no result.
     */
    method ProcessQueryVsm(keywords: seq<string>) returns (r: VsmQuery)
      ensures r == QueryStart(keywords, terms)
    {
      if |keywords| == 0 {
        return NoResults;
      }
      var val: seq<int> := [];
      var row: seq<int> := [];
      for k := 0 to |keywords|
        invariant |val| == |row| && row == KeywordRows(keywords[..k], terms)
      {
        var keyword := keywords[k];
        ghost var before := row;
        for entId := 0 to |terms|
          invariant |val| == |row| && row == before + RowsFor(keyword, terms[..entId])
        {
          assert terms[..entId + 1][..entId] == terms[..entId];
          if keyword == terms[entId] {
            val := val + [1];
            row := row + [entId];
          }
        }
        assert terms[..|terms|] == terms;
        assert keywords[..k + 1][..k] == keywords[..k];
      }
      assert keywords[..|keywords|] == keywords;
      if |val| == 0 {
        return NoResults;
      }
      return QueryVector(row);
    }
  }

  /** The parallel lists as triplets. */
  function Zip(val: seq<real>, row: seq<int>, col: seq<int>): seq<Triplet>
    requires |val| == |row| == |col|
  {
    seq(|val|, k requires 0 <= k < |val| => Triplet(row[k], col[k], val[k]))
  }

  lemma ZipSnoc(val: seq<real>, row: seq<int>, col: seq<int>, v: real, r: int, c: int)
    requires |val| == |row| == |col|
    ensures Zip(val + [v], row + [r], col + [c]) == Zip(val, row, col) + [Triplet(r, c, v)]
  {
  }

  lemma ListStep(recordsId: int, bms: seq<ScoredPosting>, i: nat, max0: int)
    requires i < |bms|
    ensures RowTriplets(recordsId, bms[..i + 1]) == RowTriplets(recordsId, bms[..i])
              + if bms[i].score != 0.0 then [Triplet(recordsId, bms[i].id - 1, bms[i].score)] else []
    ensures ListMax(max0, bms[..i + 1]) == if ListMax(max0, bms[..i]) < bms[i].id then bms[i].id else ListMax(max0, bms[..i])
  {
    assert bms[..i + 1][..i] == bms[..i];
  }

  lemma TermStep(terms: seq<string>, t: nat, lists: map<string, seq<ScoredPosting>>)
    requires t < |terms| && forall s :: s in terms ==> s in lists
    ensures AllTriplets(terms[..t + 1], lists) == AllTriplets(terms[..t], lists) + RowTriplets(t, lists[terms[t]])
    ensures MaxId(terms[..t + 1], lists) == ListMax(MaxId(terms[..t], lists), lists[terms[t]])
  {
    assert terms[..t + 1][..t] == terms[..t];
  }

  /** The first pass over one more line. */
  lemma FirstPassStep(lines: seq<string>, n: nat)
    requires n < |lines|
    ensures Records(lines[..n + 1]) == Records(lines[..n]) + [Split(Strip(lines[n]), '\t')]
    ensures LineWords(lines[..n + 1]) == LineWords(lines[..n]) + [LetterWords(lines[n])]
    ensures Flatten(LineWords(lines[..n + 1])) == Flatten(LineWords(lines[..n])) + LetterWords(lines[n])
    ensures IndexOf(LineWords(lines[..n + 1])) == AddAll(IndexOf(LineWords(lines[..n])), LetterWords(lines[n]), n + 1)
    ensures Lengths(LineWords(lines[..n + 1])) == Lengths(LineWords(lines[..n])) + [|LetterWords(lines[n])|]
  {
    RecordsStep(lines, n);
    LineWordsStep(lines, n);
    var docs := LineWords(lines[..n + 1]);
    assert docs[..|docs| - 1] == LineWords(lines[..n]);
  }

  /** One more word seen: its effect on the key set and the key order. */
  lemma KeysStep(m: Index, m': Index, s: seq<string>, x: string, id: int, ts: seq<string>, ts': seq<string>)
    requires forall g :: g in m <==> g in s
    requires m' == AddOccurrence(m, x, id) && ts == FirstSeen(s)
    requires ts' == if x in m then ts else ts + [x]
    ensures forall g :: g in m' <==> g in s + [x]
    ensures ts' == FirstSeen(s + [x])
  {
    FirstSeenSnoc(s, x);
  }

  lemma AddAllStep(m: Index, words: seq<string>, k: nat, id: int)
    requires k < |words|
    ensures AddAll(m, words[..k + 1], id) == AddOccurrence(AddAll(m, words[..k], id), words[k], id)
  {
    assert words[..k + 1][..k] == words[..k];
  }

  /** The ids of the first pass are document numbers. */
  lemma FirstPassIds(docs: seq<seq<string>>)
    ensures IdsWithin(IndexOf(docs), |Lengths(docs)|)
  {
    IndexOfSpec(docs);
    forall w, i | w in IndexOf(docs) && 0 <= i < |IndexOf(docs)[w]|
      ensures 1 <= IndexOf(docs)[w][i].id <= |docs|
    {
      assert IndexOf(docs)[w] == ListFor(w, docs);
    }
  }
}
