/**
 * The second inverted index: the records of the file, the lists of record
 * ids per word, and the linear union of two lists of scored postings that
 * are sorted by id, adding up the scores of an id found in both.
 */
module ScoredIndex {
  import opened Seqs
  import opened Strings
  import opened RecordLists
  import opened Postings

  /** The ids of a list of scored postings. */
  function IdSet(ps: seq<ScoredPosting>): set<int>
  {
    if ps == [] then {} else {ps[0].id} + IdSet(ps[1..])
  }

  /** The total score of `id` in `ps` (0 when absent). */
  function ScoreFor(id: int, ps: seq<ScoredPosting>): real
  {
    if ps == [] then 0.0 else (if ps[0].id == id then ps[0].score else 0.0) + ScoreFor(id, ps[1..])
  }

  /** Sorted by id, each id at most once. */
  predicate AscendingIds(ps: seq<ScoredPosting>)
  {
    forall i, j :: 0 <= i < j < |ps| ==> ps[i].id < ps[j].id
  }

  /**
   * Reference definition of `merge`: walk both lists from the front; a
   * common id is emitted once with the sum of its scores, otherwise the
   * posting with the smaller id is copied; when one list runs out the rest
   * of the other follows.
   */
  function Union(a: seq<ScoredPosting>, b: seq<ScoredPosting>): seq<ScoredPosting>
    decreases |a| + |b|
  {
    if a == [] then b
    else if b == [] then a
    else if a[0].id == b[0].id then [ScoredPosting(a[0].id, a[0].score + b[0].score)] + Union(a[1..], b[1..])
    else if a[0].id < b[0].id then [a[0]] + Union(a[1..], b)
    else [b[0]] + Union(a, b[1..])
  }

  lemma {:induction false} IdSetMember(ps: seq<ScoredPosting>, x: int)
    ensures x in IdSet(ps) <==> exists i :: 0 <= i < |ps| && ps[i].id == x
  {
    if ps != [] {
      IdSetMember(ps[1..], x);
      if exists i :: 0 <= i < |ps| && ps[i].id == x {
        var i :| 0 <= i < |ps| && ps[i].id == x;
        if i > 0 {
          assert ps[1..][i - 1].id == x;
        }
      }
    }
  }

  /** In an ascending list every id after the head is larger than the head's. */
  lemma HeadBelow(ps: seq<ScoredPosting>, x: int)
    requires AscendingIds(ps) && ps != []
    ensures x in IdSet(ps[1..]) ==> ps[0].id < x
  {
    IdSetMember(ps[1..], x);
  }

  /** Whatever the input, the union holds the ids of both lists and no other. */
  lemma {:induction false} UnionIds(a: seq<ScoredPosting>, b: seq<ScoredPosting>)
    ensures IdSet(Union(a, b)) == IdSet(a) + IdSet(b)
    decreases |a| + |b|
  {
    if a != [] && b != [] {
      if a[0].id == b[0].id {
        UnionIds(a[1..], b[1..]);
      } else if a[0].id < b[0].id {
        UnionIds(a[1..], b);
      } else {
        UnionIds(a, b[1..]);
      }
    }
  }

  /** Whatever the input, the score of every id is the sum of its scores in both lists. */
  lemma {:induction false} UnionScore(id: int, a: seq<ScoredPosting>, b: seq<ScoredPosting>)
    ensures ScoreFor(id, Union(a, b)) == ScoreFor(id, a) + ScoreFor(id, b)
    decreases |a| + |b|
  {
    if a != [] && b != [] {
      if a[0].id == b[0].id {
        UnionScore(id, a[1..], b[1..]);
      } else if a[0].id < b[0].id {
        UnionScore(id, a[1..], b);
      } else {
        UnionScore(id, a, b[1..]);
      }
    }
  }

  /** A posting ahead of larger ids keeps a list ascending. */
  lemma PrependAscending(p: ScoredPosting, r: seq<ScoredPosting>)
    requires AscendingIds(r)
    requires forall x :: x in IdSet(r) ==> p.id < x
    ensures AscendingIds([p] + r)
  {
    forall k | 0 <= k < |r|
      ensures p.id < r[k].id
    {
      IdSetMember(r, r[k].id);
    }
  }

  /** The union of ascending lists is ascending. */
  lemma {:induction false} UnionAscending(a: seq<ScoredPosting>, b: seq<ScoredPosting>)
    requires AscendingIds(a) && AscendingIds(b)
    ensures AscendingIds(Union(a, b))
    decreases |a| + |b|
  {
    if a != [] && b != [] {
      if a[0].id == b[0].id {
        UnionAscending(a[1..], b[1..]);
        UnionIds(a[1..], b[1..]);
        forall x | x in IdSet(a[1..]) + IdSet(b[1..])
          ensures a[0].id < x
        {
          HeadBelow(a, x);
          HeadBelow(b, x);
        }
        PrependAscending(ScoredPosting(a[0].id, a[0].score + b[0].score), Union(a[1..], b[1..]));
      } else if a[0].id < b[0].id {
        UnionAscending(a[1..], b);
        UnionIds(a[1..], b);
        forall x | x in IdSet(a[1..]) + IdSet(b)
          ensures a[0].id < x
        {
          HeadBelow(a, x);
          HeadBelow(b, x);
        }
        PrependAscending(a[0], Union(a[1..], b));
      } else {
        UnionAscending(a, b[1..]);
        UnionIds(a, b[1..]);
        forall x | x in IdSet(a) + IdSet(b[1..])
          ensures b[0].id < x
        {
          HeadBelow(a, x);
          HeadBelow(b, x);
        }
        PrependAscending(b[0], Union(a, b[1..]));
      }
    }
  }

  /** An ascending list holds as many ids as postings. */
  lemma {:induction false} AscendingCard(ps: seq<ScoredPosting>)
    requires AscendingIds(ps)
    ensures |IdSet(ps)| == |ps|
  {
    if ps != [] {
      AscendingCard(ps[1..]);
      HeadBelow(ps, ps[0].id);
    }
  }

  /**
   * For ascending lists, the union is as long as both lists together
   * less the ids they share.
   */
  lemma UnionLength(a: seq<ScoredPosting>, b: seq<ScoredPosting>)
    requires AscendingIds(a) && AscendingIds(b)
    ensures |Union(a, b)| == |a| + |b| - |IdSet(a) * IdSet(b)|
  {
    UnionAscending(a, b);
    UnionIds(a, b);
    AscendingCard(a);
    AscendingCard(b);
    AscendingCard(Union(a, b));
  }

  /** In an ascending list the score of an id is the score of its one posting. */
  lemma {:induction false} ScoreForAt(ps: seq<ScoredPosting>, k: nat)
    requires AscendingIds(ps) && k < |ps|
    ensures ScoreFor(ps[k].id, ps) == ps[k].score
  {
    if k == 0 {
      HeadBelow(ps, ps[0].id);
      ScoreForAbsent(ps[0].id, ps[1..]);
    } else {
      ScoreForAt(ps[1..], k - 1);
    }
  }

  lemma {:induction false} ScoreForAbsent(id: int, ps: seq<ScoredPosting>)
    requires id !in IdSet(ps)
    ensures ScoreFor(id, ps) == 0.0
  {
    if ps != [] {
      ScoreForAbsent(id, ps[1..]);
    }
  }

  /**
   * The postings of the union of ascending lists are exactly one per id of
   * either list, carrying the sum of that id's scores in the two lists; so
   * an id found in one list only keeps its posting unchanged.
   */
  lemma UnionEntries(a: seq<ScoredPosting>, b: seq<ScoredPosting>, p: ScoredPosting)
    requires AscendingIds(a) && AscendingIds(b)
    ensures p in Union(a, b) <==>
              p.id in IdSet(a) + IdSet(b) && p.score == ScoreFor(p.id, a) + ScoreFor(p.id, b)
  {
    var u := Union(a, b);
    UnionAscending(a, b);
    UnionIds(a, b);
    UnionScore(p.id, a, b);
    IdSetMember(u, p.id);
    if p.id in IdSet(a) + IdSet(b) && p.score == ScoreFor(p.id, a) + ScoreFor(p.id, b) {
      var k :| 0 <= k < |u| && u[k].id == p.id;
      ScoreForAt(u, k);
      assert u[k] == p;
    }
    if p in u {
      var k :| 0 <= k < |u| && u[k] == p;
      ScoreForAt(u, k);
    }
  }

  /** The doctests of `merge`, each score printed to one decimal. */
  lemma UnionExamples()
    ensures Union([ScoredPosting(1, 2.1), ScoredPosting(5, 3.2)],
                  [ScoredPosting(1, 1.7), ScoredPosting(2, 1.3), ScoredPosting(6, 3.3)])
         == [ScoredPosting(1, 3.8), ScoredPosting(2, 1.3), ScoredPosting(5, 3.2), ScoredPosting(6, 3.3)]
    ensures Union([ScoredPosting(3, 1.7), ScoredPosting(5, 3.2), ScoredPosting(7, 4.1)],
                  [ScoredPosting(1, 2.3), ScoredPosting(5, 1.3)])
         == [ScoredPosting(1, 2.3), ScoredPosting(3, 1.7), ScoredPosting(5, 4.5), ScoredPosting(7, 4.1)]
    ensures Union([], [ScoredPosting(1, 2.3), ScoredPosting(5, 1.3)]) == [ScoredPosting(1, 2.3), ScoredPosting(5, 1.3)]
    ensures Union([ScoredPosting(1, 2.3)], []) == [ScoredPosting(1, 2.3)]
    ensures Union([], []) == []
  {
    var p1, p2, p5, p6 := ScoredPosting(1, 2.1), ScoredPosting(2, 1.3), ScoredPosting(5, 3.2), ScoredPosting(6, 3.3);
    var q1 := ScoredPosting(1, 1.7);
    assert Union([p5], [p6]) == [p5, p6];
    assert Union([p5], [p2, p6]) == [p2, p5, p6];
    assert Union([p1, p5], [q1, p2, p6]) == [ScoredPosting(1, 3.8), p2, p5, p6];
    var r3, r5, r7, s1, s5 := ScoredPosting(3, 1.7), ScoredPosting(5, 3.2), ScoredPosting(7, 4.1),
                              ScoredPosting(1, 2.3), ScoredPosting(5, 1.3);
    assert Union([r5, r7], [s5]) == [ScoredPosting(5, 4.5), r7];
    assert Union([r3, r5, r7], [s5]) == [r3, ScoredPosting(5, 4.5), r7];
  }

  class InvertedIndex {
    var invertedLists: IdLists
    var records: seq<seq<string>>

    /** Every list holds at least one id. */
    predicate Valid()
      reads this
    {
      NonEmptyLists(invertedLists)
    }

    constructor ()
      ensures invertedLists == map[] && records == [] && Valid()
    {
      invertedLists := map[];
      records := [];
    }

    /**
     * `read_from_file`: one record per line (the stripped line split at
     * tabs) and record ids 1, 2, ... that go once onto the list of each
     * word of the line.
     */
    method ReadFromLines(lines: seq<string>)
      requires Valid()
      modifies this
      ensures Valid()
      ensures records == old(records) + Records(lines)
      ensures invertedLists == AddDocs(old(invertedLists), LineWords(lines))
    {
      var recordId := 0;
      for n := 0 to |lines|
        invariant recordId == n
        invariant records == old(records) + Records(lines[..n])
        invariant Valid() && invertedLists == AddDocs(old(invertedLists), LineWords(lines[..n]))
      {
        var line := Strip(lines[n]);
        recordId := recordId + 1;
        RecordsStep(lines, n);
        AppendAssoc(old(records), Records(lines[..n]), [Split(line, '\t')]);
        records := records + [Split(line, '\t')];
        LetterWordsStrip(lines[n]);
        LineWordsStep(lines, n);
        AddRecord(LetterWords(line), recordId);
      }
      assert lines[..|lines|] == lines;
    }

    /** The words of one record go onto their lists. */
    method AddRecord(words: seq<string>, recordId: int)
      requires Valid()
      modifies this`invertedLists
      ensures Valid()
      ensures invertedLists == AddIds(old(invertedLists), words, recordId)
    {
      for k := 0 to |words|
        invariant Valid() && invertedLists == AddIds(old(invertedLists), words[..k], recordId)
      {
        var word := words[k];
        assert words[..k + 1][..k] == words[..k];
        if word !in invertedLists {
          assert GetIds(invertedLists, word) + [recordId] == [recordId];
          invertedLists := invertedLists[word := [recordId]];
        } else if Last(invertedLists[word]) != recordId {
          invertedLists := invertedLists[word := invertedLists[word] + [recordId]];
        }
      }
      assert words[..|words|] == words;
    }

    /**
     * `merge(list1, list2)`: the walk with two indices, then the rest of the
     * list that is not used up.
     */
    method Merge(list1: seq<ScoredPosting>, list2: seq<ScoredPosting>) returns (result: seq<ScoredPosting>)
      ensures result == Union(list1, list2)
    {
      result := [];
      var i, j := 0, 0;
      while i < |list1| && j < |list2|
        invariant 0 <= i <= |list1| && 0 <= j <= |list2|
        invariant result + Union(list1[i..], list2[j..]) == Union(list1, list2)
        decreases |list1| - i + |list2| - j
      {
        assert list1[i..][1..] == list1[i + 1..] && list2[j..][1..] == list2[j + 1..];
        if list1[i].id == list2[j].id {
          var mrg := list1[i].score + list2[j].score;
          AppendAssoc(result, [ScoredPosting(list1[i].id, mrg)], Union(list1[i + 1..], list2[j + 1..]));
          result := result + [ScoredPosting(list1[i].id, mrg)];
          i := i + 1;
          j := j + 1;
        } else if list1[i].id < list2[j].id {
          AppendAssoc(result, [list1[i]], Union(list1[i + 1..], list2[j..]));
          result := result + [list1[i]];
          i := i + 1;
        } else {
          AppendAssoc(result, [list2[j]], Union(list1[i..], list2[j + 1..]));
          result := result + [list2[j]];
          j := j + 1;
        }
      }
      if |list1| - i == 0 {
        result := result + list2[j..];
      } else {
        result := result + list1[i..];
      }
    }
  }
}
