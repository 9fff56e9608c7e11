/**
 * The first inverted index: lists of record ids per word, the linear
 * intersection of two increasing lists, and keyword queries answered by
 * intersecting the lists of all keywords.
 */
module BooleanIndex {
  import opened Seqs
  import opened Outcomes
  import opened Strings
  import opened RecordLists

  /**
   * Reference definition of the intersection: walk both lists from the
   * front, keep a common head, drop the smaller one otherwise.
   */
  function Intersection(a: seq<int>, b: seq<int>): seq<int>
    decreases |a| + |b|
  {
    if a == [] || b == [] then []
    else if a[0] == b[0] then [a[0]] + Intersection(a[1..], b[1..])
    else if a[0] < b[0] then Intersection(a[1..], b)
    else Intersection(a, b[1..])
  }

  /** Whatever the input, every id of the intersection is on both lists. */
  lemma {:induction false} IntersectionSound(a: seq<int>, b: seq<int>, x: int)
    ensures x in Intersection(a, b) ==> x in a && x in b
    decreases |a| + |b|
  {
    if a != [] && b != [] {
      if a[0] == b[0] {
        IntersectionSound(a[1..], b[1..], x);
      } else if a[0] < b[0] {
        IntersectionSound(a[1..], b, x);
      } else {
        IntersectionSound(a, b[1..], x);
      }
    }
  }

  /** For increasing lists, every id on both lists is in the intersection. */
  lemma {:induction false} IntersectionComplete(a: seq<int>, b: seq<int>, x: int)
    requires Increasing(a) && Increasing(b)
    ensures x in a && x in b ==> x in Intersection(a, b)
    decreases |a| + |b|
  {
    if a != [] && b != [] && x in a && x in b {
      if a[0] == b[0] {
        if x != a[0] {
          assert x in a[1..] && x in b[1..];
        }
        IntersectionComplete(a[1..], b[1..], x);
      } else if a[0] < b[0] {
        assert x != a[0];
        assert x in a[1..];
        IntersectionComplete(a[1..], b, x);
      } else {
        assert x != b[0];
        assert x in b[1..];
        IntersectionComplete(a, b[1..], x);
      }
    }
  }

  /** The intersection of increasing lists is increasing. */
  lemma {:induction false} IntersectionIncreasing(a: seq<int>, b: seq<int>)
    requires Increasing(a) && Increasing(b)
    ensures Increasing(Intersection(a, b))
    decreases |a| + |b|
  {
    if a != [] && b != [] {
      if a[0] == b[0] {
        var t := Intersection(a[1..], b[1..]);
        IntersectionIncreasing(a[1..], b[1..]);
        forall k | 0 <= k < |t|
          ensures a[0] < t[k]
        {
          IntersectionSound(a[1..], b[1..], t[k]);
        }
      } else if a[0] < b[0] {
        IntersectionIncreasing(a[1..], b);
      } else {
        IntersectionIncreasing(a, b[1..]);
      }
    }
  }

  /** The doctests of `intersect`. */
  lemma IntersectionExamples()
    ensures Intersection([1, 5, 7], [2, 4]) == []
    ensures Intersection([1, 2, 5, 7], [1, 3, 5, 6, 7, 9]) == [1, 5, 7]
  {
    assert Intersection([7], [9]) == [];
    assert Intersection([5, 7], [5, 6, 7, 9]) == [5, 7];
  }

  /**
   * The intersection of the lists of all keywords (at least two), taken
   * from left to right.
   */
  function IntersectAll(m: IdLists, keywords: seq<string>): seq<int>
    requires |keywords| >= 2 && forall k :: 0 <= k < |keywords| ==> keywords[k] in m
  {
    if |keywords| == 2 then Intersection(m[keywords[0]], m[keywords[1]])
    else Intersection(IntersectAll(m, keywords[..|keywords| - 1]), m[Last(keywords)])
  }

  /**
   * `process_query(keywords)`: no result for fewer than two keywords, a
   * lookup failure when one of the first two has no list, no result when
   * a later one has none, and the intersection of all lists otherwise.
   */
  function Query(m: IdLists, keywords: seq<string>): Result<seq<int>>
  {
    if |keywords| < 2 then Ok([])
    else if keywords[0] !in m || keywords[1] !in m then Fail(KeyError)
    else if exists k :: 2 <= k < |keywords| && keywords[k] !in m then Ok([])
    else Ok(IntersectAll(m, keywords))
  }

  predicate AllIncreasing(m: IdLists)
  {
    forall w :: w in m ==> Increasing(m[w])
  }

  /**
   * Over increasing lists, a query whose keywords all have lists yields
   * exactly the ids on every one of those lists, in increasing order.
   */
  lemma {:induction false} IntersectAllSpec(m: IdLists, keywords: seq<string>, x: int)
    requires AllIncreasing(m)
    requires |keywords| >= 2 && forall k :: 0 <= k < |keywords| ==> keywords[k] in m
    ensures Increasing(IntersectAll(m, keywords))
    ensures x in IntersectAll(m, keywords) <==> forall k :: 0 <= k < |keywords| ==> x in m[keywords[k]]
  {
    var r := IntersectAll(m, keywords);
    if |keywords| == 2 {
      IntersectionIncreasing(m[keywords[0]], m[keywords[1]]);
      IntersectionSound(m[keywords[0]], m[keywords[1]], x);
      IntersectionComplete(m[keywords[0]], m[keywords[1]], x);
    } else {
      var init := keywords[..|keywords| - 1];
      var r0 := IntersectAll(m, init);
      IntersectAllSpec(m, init, x);
      IntersectionIncreasing(r0, m[Last(keywords)]);
      IntersectionSound(r0, m[Last(keywords)], x);
      IntersectionComplete(r0, m[Last(keywords)], x);
      assert forall k :: 0 <= k < |init| ==> init[k] == keywords[k];
      if forall k :: 0 <= k < |keywords| ==> x in m[keywords[k]] {
        assert x in m[Last(keywords)];
      }
    }
  }

  /** A later keyword without a list empties the result; a missing first or second one fails. */
  lemma QueryMissing(m: IdLists, keywords: seq<string>, k: nat)
    requires k < |keywords| && keywords[k] !in m
    ensures Query(m, keywords) == if |keywords| < 2 then Ok([])
                                  else if k < 2 || keywords[0] !in m || keywords[1] !in m then Fail(KeyError)
                                  else Ok([])
  {
  }

  /** The doctests of `process_query`, over the lists of the example file. */
  lemma QueryExamples(m: IdLists)
    requires m == map["a" := [1, 2], "doc" := [1, 2, 3], "film" := [2], "movie" := [1, 3]]
    ensures Query(m, []) == Ok([])
    ensures Query(m, ["doc", "movie"]) == Ok([1, 3])
    ensures Query(m, ["doc", "movie", "comedy"]) == Ok([])
  {
    assert Intersection([2, 3], [3]) == [3];
    assert Intersection([1, 2, 3], [1, 3]) == [1, 3];
    var kws := ["doc", "movie", "comedy"];
    assert 2 <= 2 < |kws| && kws[2] !in m;
  }

  class InvertedIndex {
    var invertedLists: IdLists

    /** Every list holds at least one id. */
    predicate Valid()
      reads this
    {
      NonEmptyLists(invertedLists)
    }

    constructor ()
      ensures invertedLists == map[] && Valid()
    {
      invertedLists := map[];
    }

    /**
     * `read_from_file`: record ids 1, 2, ... per line; the id of a record
     * goes once onto the list of each of its words.
     */
    method ReadFromLines(lines: seq<string>)
      requires Valid()
      modifies this
      ensures Valid()
      ensures invertedLists == AddDocs(old(invertedLists), LineWords(lines))
    {
      var recordId := 0;
      for n := 0 to |lines|
        invariant recordId == n
        invariant Valid() && invertedLists == AddDocs(old(invertedLists), LineWords(lines[..n]))
      {
        var line := Strip(lines[n]);
        recordId := recordId + 1;
        LetterWordsStrip(lines[n]);
        AddRecord(LetterWords(line), recordId);
        LineWordsStep(lines, n);
      }
      assert lines[..|lines|] == lines;
    }

    /** The words of one record go onto their lists. */
    method AddRecord(words: seq<string>, recordId: int)
      requires Valid()
      modifies this
      ensures Valid()
      ensures invertedLists == AddIds(old(invertedLists), words, recordId)
    {
      for k := 0 to |words|
        invariant Valid() && invertedLists == AddIds(old(invertedLists), words[..k], recordId)
      {
        var word := words[k];
        assert words[..k + 1][..k] == words[..k];
        if word !in invertedLists {
          invertedLists := invertedLists[word := []];
        } else if recordId == Last(invertedLists[word]) {
          continue;
        }
        invertedLists := invertedLists[word := invertedLists[word] + [recordId]];
      }
      assert words[..|words|] == words;
    }

    /**
     * `intersect(list1, list2)`: the walk with two indices. Each step moves at
     * least one index, so there are at most |list1| + |list2| steps.
     */
    method Intersect(list1: seq<int>, list2: seq<int>) returns (result: seq<int>, ghost steps: nat)
      ensures result == Intersection(list1, list2)
      ensures steps <= |list1| + |list2|
    {
      result := [];
      steps := 0;
      var i, j := 0, 0;
      while i < |list1| && j < |list2|
        invariant 0 <= i <= |list1| && 0 <= j <= |list2|
        invariant result + Intersection(list1[i..], list2[j..]) == Intersection(list1, list2)
        invariant steps <= i + j
        decreases |list1| - i + |list2| - j
      {
        assert list1[i..][1..] == list1[i + 1..] && list2[j..][1..] == list2[j + 1..];
        if list1[i] == list2[j] {
          result := result + [list1[i]];
          i := i + 1;
          j := j + 1;
        } else if list1[i] < list2[j] {
          i := i + 1;
        } else {
          j := j + 1;
        }
        steps := steps + 1;
      }
    }

    /** `process_query(keywords)`. */
    method ProcessQuery(keywords: seq<string>) returns (r: Result<seq<int>>)
      ensures r == Query(invertedLists, keywords)
    {
      if |keywords| < 2 {
        return Ok([]);
      }
      if keywords[0] !in invertedLists || keywords[1] !in invertedLists {
        return Fail(KeyError);
      }
      var list1 := invertedLists[keywords[0]];
      var list2 := invertedLists[keywords[1]];
      ghost var steps: nat;
      var result;
      result, steps := Intersect(list1, list2);
      assert keywords[..2] == [keywords[0], keywords[1]];
      for i := 2 to |keywords|
        invariant forall k :: 0 <= k < i ==> keywords[k] in invertedLists
        invariant result == IntersectAll(invertedLists, keywords[..i])
      {
        if keywords[i] in invertedLists {
          var tmp := invertedLists[keywords[i]];
          result, steps := Intersect(result, tmp);
          assert keywords[..i + 1][..i] == keywords[..i];
        } else {
          return Ok([]);
        }
      }
      assert keywords[..|keywords|] == keywords;
      return Ok(result);
    }
  }
}
