/**
 * Measures of a result list against the set of relevant ids (precision
 * at k and average precision, on exact rationals), and the reading of a
 * benchmark of queries with their relevant ids.
 */
module Evaluation {
  import opened Seqs
  import opened Outcomes
  import opened Strings

  /** How many entries of `results` are relevant (repetitions count each time). */
  function Hits(results: seq<int>, relevant: set<int>): (n: nat)
    ensures n <= |results|
  {
    if results == [] then 0
    else Hits(results[..|results| - 1], relevant) + if Last(results) in relevant then 1 else 0
  }

  /** The number of results `precision_at_k` looks at. */
  function Examined(n: nat, k: int): (m: nat)
    ensures m <= n && (k >= 0 ==> m <= k)
  {
    if k <= 0 then 0 else if k < n then k else n
  }

  /**
   * `precision_at_k`: the relevant ones among the first k results,
   * divided by k even when there are fewer than k results; 0 for k = 0.
   */
  function Precision(results: seq<int>, relevant: set<int>, k: int): real
  {
    if k == 0 then 0.0 else (Hits(results[..Examined(|results|, k)], relevant) as real) / (k as real)
  }

  /** For k > 0 the precision is a fraction in [0, 1]. */
  lemma PrecisionBounds(results: seq<int>, relevant: set<int>, k: int)
    requires k > 0
    ensures 0.0 <= Precision(results, relevant, k) <= 1.0
  {
    var h := Hits(results[..Examined(|results|, k)], relevant);
    assert h <= k;
    DivideAtMost(h, k);
  }

  lemma DivideAtMost(h: nat, k: int)
    requires 0 < k && h <= k
    ensures 0.0 <= (h as real) / (k as real) <= 1.0
  {
    assert (h as real) <= (k as real);
  }

  /** The doctests of `precision_at_k`. */
  lemma PrecisionExamples()
    ensures Precision([5, 3, 6, 1, 2], {1, 2, 5, 6, 7, 8}, 0) == 0.0
    ensures Precision([5, 3, 6, 1, 2], {1, 2, 5, 6, 7, 8}, 4) == 0.75
    ensures Precision([5, 3, 6, 1, 2], {1, 2, 5, 6, 7, 8}, 8) == 0.5
  {
    var s, rel := [5, 3, 6, 1, 2], {1, 2, 5, 6, 7, 8};
    assert s[..4] == [5, 3, 6, 1] && s[..5] == s;
    assert [5, 3, 6, 1][..3] == [5, 3, 6] && [5, 3, 6][..2] == [5, 3] && [5, 3][..1] == [5];
    assert Hits([5, 3, 6, 1], rel) == 3;
    assert s[..4] == s[..5][..4];
    assert Hits(s, rel) == 4;
  }

  /**
   * The sum behind `average_precision`: for every position i (from 1)
   * holding a relevant id, the relevant ones among the first i results
   * divided by i.
   */
  function PrecisionSum(results: seq<int>, relevant: set<int>): real
  {
    if results == [] then 0.0
    else
      PrecisionSum(results[..|results| - 1], relevant)
      + if Last(results) in relevant then (Hits(results, relevant) as real) / (|results| as real) else 0.0
  }

  /** `average_precision`: the sum divided by the number of relevant ids, which must not be 0. */
  function AveragePrecisionOf(results: seq<int>, relevant: set<int>): Result<real>
  {
    if |relevant| == 0 then Fail(ZeroDivisionError) else Ok(PrecisionSum(results, relevant) / (|relevant| as real))
  }

  /** Each term of the sum lies in (0, 1], so the sum lies between 0 and the number of hits. */
  lemma {:induction false} PrecisionSumBounds(results: seq<int>, relevant: set<int>)
    ensures 0.0 <= PrecisionSum(results, relevant) <= Hits(results, relevant) as real
  {
    if results != [] {
      PrecisionSumBounds(results[..|results| - 1], relevant);
      if Last(results) in relevant {
        DivideAtMost(Hits(results, relevant), |results|);
      }
    }
  }

  /** No relevant result: the sum is 0. */
  lemma NoHitsSum(results: seq<int>, relevant: set<int>)
    requires Hits(results, relevant) == 0
    ensures PrecisionSum(results, relevant) == 0.0
  {
    PrecisionSumBounds(results, relevant);
  }

  /** The relevant ids that occur in the results. */
  function Found(results: seq<int>, relevant: set<int>): set<int>
  {
    set x | x in results && x in relevant
  }

  /** Without repeated results, the hits are the relevant ids found. */
  lemma {:induction false} HitsDistinct(results: seq<int>, relevant: set<int>)
    requires Distinct(results)
    ensures Hits(results, relevant) == |Found(results, relevant)|
  {
    if results != [] {
      var init := results[..|results| - 1];
      HitsDistinct(init, relevant);
      var f, f0 := Found(results, relevant), Found(init, relevant);
      assert results == init + [Last(results)];
      assert Last(results) !in init;
      if Last(results) in relevant {
        assert f == f0 + {Last(results)};
      } else {
        assert f == f0;
      }
    }
  }

  lemma SubsetCard(a: set<int>, b: set<int>)
    requires a <= b
    ensures |a| <= |b|
  {
    assert b == a + (b - a);
    assert a * (b - a) == {};
  }

  lemma RealDivideAtMost(s: real, n: real)
    requires 0.0 <= s <= n && 0.0 < n
    ensures 0.0 <= s / n <= 1.0
  {
  }

  /** Average precision fails exactly when no id is relevant. */
  lemma AveragePrecisionFails(results: seq<int>, relevant: set<int>)
    ensures AveragePrecisionOf(results, relevant).Fail? <==> |relevant| == 0
    ensures AveragePrecisionOf(results, relevant).Fail? ==> AveragePrecisionOf(results, relevant).error == ZeroDivisionError
  {
  }

  /** No relevant result: average precision 0. */
  lemma AveragePrecisionNoHits(results: seq<int>, relevant: set<int>)
    requires |relevant| > 0 && Hits(results, relevant) == 0
    ensures AveragePrecisionOf(results, relevant) == Ok(0.0)
  {
    NoHitsSum(results, relevant);
  }

  /** Results without repetition: average precision lies in [0, 1]. */
  lemma AveragePrecisionBounds(results: seq<int>, relevant: set<int>)
    requires |relevant| > 0 && Distinct(results)
    ensures 0.0 <= AveragePrecisionOf(results, relevant).value <= 1.0
  {
    PrecisionSumBounds(results, relevant);
    HitsDistinct(results, relevant);
    SubsetCard(Found(results, relevant), relevant);
    RealDivideAtMost(PrecisionSum(results, relevant), |relevant| as real);
  }

  /** The doctest of `average_precision`: (1/1 + 2/4 + 3/5) / 4. */
  lemma AveragePrecisionExample()
    ensures AveragePrecisionOf([7, 17, 9, 42, 5], {5, 7, 12, 42}) == Ok(0.525)
  {
    var rel := {5, 7, 12, 42};
    var s := [7, 17, 9, 42, 5];
    assert s[..4] == [7, 17, 9, 42] && [7, 17, 9, 42][..3] == [7, 17, 9];
    assert [7, 17, 9][..2] == [7, 17] && [7, 17][..1] == [7];
    assert Hits([7, 17, 9, 42], rel) == 2;
    assert PrecisionSum([7, 17, 9, 42], rel) == 1.5;
    assert Hits(s, rel) == 3;
    assert |rel| == 4;
  }

  /** `precision_at_k(result_ids, relevant_ids, k)`. */
  method PrecisionAtK(resultIds: seq<int>, relevantIds: set<int>, k: int) returns (p: real)
    ensures p == Precision(resultIds, relevantIds, k)
  {
    if k == 0 {
      return 0.0;
    }
    var result: seq<nat> := [];
    var sum := 0;
    var i := 0;
    while i < k && i < |resultIds|
      invariant 0 <= i <= Examined(|resultIds|, k)
      invariant |result| == i && sum == Hits(resultIds[..i], relevantIds)
    {
      assert resultIds[..i + 1][..i] == resultIds[..i];
      if resultIds[i] in relevantIds {
        result := result + [1];
        sum := sum + 1;
      } else {
        result := result + [0];
      }
      i := i + 1;
    }
    p := (sum as real) / (k as real);
  }

  /** `average_precision(result_ids, relevant_ids)`. */
  method AveragePrecision(resultIds: seq<int>, relevantIds: set<int>) returns (r: Result<real>)
    ensures r == AveragePrecisionOf(resultIds, relevantIds)
  {
    var resultIndx: seq<int> := [];
    var sum := 0.0;
    for i := 1 to |resultIds| + 1
      invariant |resultIndx| == Hits(resultIds[..i - 1], relevantIds)
      invariant sum == PrecisionSum(resultIds[..i - 1], relevantIds)
    {
      assert resultIds[..i][..i - 1] == resultIds[..i - 1];
      if resultIds[i - 1] in relevantIds {
        resultIndx := resultIndx + [i - 1];
        sum := sum + (|resultIndx| as real) / (i as real);
      }
    }
    assert resultIds[..|resultIds|] == resultIds;
    if |relevantIds| == 0 {
      return Fail(ZeroDivisionError);
    }
    r := Ok(sum / (|relevantIds| as real));
  }

  /** `list(map(int, pieces))`: the first piece that is not a number fails. */
  function ParseInts(pieces: seq<string>): (r: Result<seq<int>>)
    ensures r.Ok? ==> |r.value| == |pieces|
  {
    if pieces == [] then Ok([])
    else
      var init := ParseInts(pieces[..|pieces| - 1]);
      var last := ParseInt(Last(pieces));
      if init.Fail? then init
      else if last.Fail? then Fail(last.error)
      else Ok(init.value + [last.value])
  }

  /** The numbers read are the values of the pieces, in order. */
  lemma {:induction false} ParseIntsAt(pieces: seq<string>, k: nat)
    requires ParseInts(pieces).Ok? && k < |pieces|
    ensures ParseInt(pieces[k]) == Ok(ParseInts(pieces).value[k])
  {
    if k < |pieces| - 1 {
      ParseIntsAt(pieces[..|pieces| - 1], k);
    }
  }

  /**
   * One benchmark line `<query>TAB<id> <id> ...`: stripped, split at tabs,
   * the second field split at single spaces and each piece read as a
   * number. A line without a tab fails on the missing field.
   */
  function BenchmarkLine(line: string): Result<(string, set<int>)>
  {
    var fields := Split(Strip(line), '\t');
    if |fields| < 2 then Fail(IndexError)
    else
      var ids := ParseInts(Split(fields[1], ' '));
      if ids.Fail? then Fail(ids.error) else Ok((fields[0], set x | x in ids.value))
  }

  /** A benchmark query with its relevant ids. */
  type Entry = (string, set<int>)

  /**
   * Reading line by line with `parse`: the first line that fails is the
   * failure; otherwise each line binds its query to its ids, a later line
   * for a query replacing an earlier one.
   */
  function ReadEntries(lines: seq<string>, parse: string -> Result<Entry>): Result<map<string, set<int>>>
  {
    if lines == [] then Ok(map[])
    else
      var m := ReadEntries(lines[..|lines| - 1], parse);
      var e := parse(Last(lines));
      if m.Fail? then m
      else if e.Fail? then Fail(e.error)
      else Ok(m.value[e.value.0 := e.value.1])
  }

  /** `read_benchmark`. */
  function Benchmark(lines: seq<string>): Result<map<string, set<int>>>
  {
    ReadEntries(lines, BenchmarkLine)
  }

  /** One more line: its query is (re)bound to its ids, or its failure is the result. */
  lemma ReadEntriesStep(lines: seq<string>, parse: string -> Result<Entry>, n: nat)
    requires n < |lines| && ReadEntries(lines[..n], parse).Ok?
    ensures ReadEntries(lines[..n + 1], parse) ==
              var e := parse(lines[n]);
              if e.Fail? then Fail(e.error) else Ok(ReadEntries(lines[..n], parse).value[e.value.0 := e.value.1])
  {
    assert lines[..n + 1][..n] == lines[..n];
  }

  /** A failure on a prefix is the failure of the whole. */
  lemma {:induction false} ReadEntriesFailPrefix(lines: seq<string>, parse: string -> Result<Entry>, n: nat)
    requires n <= |lines| && ReadEntries(lines[..n], parse).Fail?
    ensures ReadEntries(lines, parse) == ReadEntries(lines[..n], parse)
    decreases |lines| - n
  {
    if n < |lines| {
      assert lines[..|lines| - 1][..n] == lines[..n];
      ReadEntriesFailPrefix(lines[..|lines| - 1], parse, n);
    } else {
      assert lines[..n] == lines;
    }
  }

  /** A benchmark that reads has every line well formed. */
  lemma {:induction false} ReadEntriesLinesOk(lines: seq<string>, parse: string -> Result<Entry>, i: nat)
    requires ReadEntries(lines, parse).Ok? && i < |lines|
    ensures parse(lines[i]).Ok?
  {
    var init := lines[..|lines| - 1];
    if i < |init| {
      ReadEntriesLinesOk(init, parse, i);
      assert init[i] == lines[i];
    }
  }

  /** The queries read are exactly the queries of the lines. */
  lemma {:induction false} ReadEntriesKeys(lines: seq<string>, parse: string -> Result<Entry>, q: string)
    requires ReadEntries(lines, parse).Ok?
    ensures q in ReadEntries(lines, parse).value <==>
              exists i :: 0 <= i < |lines| && parse(lines[i]).Ok? && parse(lines[i]).value.0 == q
  {
    if lines != [] {
      var init := lines[..|lines| - 1];
      ReadEntriesKeys(init, parse, q);
      ReadEntriesLinesOk(lines, parse, |lines| - 1);
      if exists i :: 0 <= i < |init| && parse(init[i]).Ok? && parse(init[i]).value.0 == q {
        var i :| 0 <= i < |init| && parse(init[i]).Ok? && parse(init[i]).value.0 == q;
        assert init[i] == lines[i];
      }
      if exists i :: 0 <= i < |lines| && parse(lines[i]).Ok? && parse(lines[i]).value.0 == q {
        var i :| 0 <= i < |lines| && parse(lines[i]).Ok? && parse(lines[i]).value.0 == q;
        if i < |init| {
          assert init[i] == lines[i];
        }
      }
    }
  }

  /** A query maps to the ids of the last line with that query. */
  lemma {:induction false} ReadEntriesLastWins(lines: seq<string>, parse: string -> Result<Entry>, q: string, i: nat)
    requires ReadEntries(lines, parse).Ok? && i < |lines|
    requires parse(lines[i]).Ok? && parse(lines[i]).value.0 == q
    requires forall j :: i < j < |lines| && parse(lines[j]).Ok? ==> parse(lines[j]).value.0 != q
    ensures q in ReadEntries(lines, parse).value && ReadEntries(lines, parse).value[q] == parse(lines[i]).value.1
  {
    var init := lines[..|lines| - 1];
    ReadEntriesLinesOk(lines, parse, |lines| - 1);
    if i < |init| {
      assert init[i] == lines[i];
      forall j | i < j < |init| && parse(init[j]).Ok?
        ensures parse(init[j]).value.0 != q
      {
        assert init[j] == lines[j];
      }
      ReadEntriesLastWins(init, parse, q, i);
    }
  }

  /** The ids of a benchmark line as written: decimal numbers separated by single spaces. */
  function IdPieces(ids: seq<int>): (pieces: seq<string>)
    ensures |pieces| == |ids|
    ensures forall k :: 0 <= k < |ids| ==> pieces[k] == IntToString(ids[k])
  {
    seq(|ids|, k requires 0 <= k < |ids| => IntToString(ids[k]))
  }

  /** A benchmark line for `query` and (at least one) `ids`, as the benchmark file holds it. */
  function FormatLine(query: string, ids: seq<int>): string
    requires |ids| >= 1
  {
    query + "\t" + Join(IdPieces(ids), ' ') + "\n"
  }

  lemma IntToStringNoSpace(n: int, c: char)
    requires IsSpace(c)
    ensures c !in IntToString(n)
  {
    var s := IntToString(n);
    if n < 0 {
      assert s == "-" + NatToString(-n);
      assert forall i :: 1 <= i < |s| ==> s[i] == NatToString(-n)[i - 1];
    }
  }

  /** A character in no piece and other than the separator is not in the join. */
  lemma {:induction false} JoinAvoids(parts: seq<string>, sep: char, c: char)
    requires |parts| >= 1 && c != sep
    requires forall k :: 0 <= k < |parts| ==> c !in parts[k]
    ensures c !in Join(parts, sep)
  {
    if |parts| > 1 {
      JoinAvoids(parts[..|parts| - 1], sep, c);
    }
  }

  lemma JoinLast(parts: seq<string>, sep: char)
    requires |parts| >= 1 && Last(parts) != []
    ensures Join(parts, sep) != [] && Last(Join(parts, sep)) == Last(Last(parts))
  {
  }

  lemma ParseIntsSnoc(pieces: seq<string>, v: seq<int>, x: int)
    requires |pieces| > 0 && ParseInts(pieces[..|pieces| - 1]) == Ok(v) && ParseInt(Last(pieces)) == Ok(x)
    ensures ParseInts(pieces) == Ok(v + [x])
  {
  }

  /** The pieces read back as the ids. */
  lemma {:induction false} ParseIdPieces(ids: seq<int>)
    ensures ParseInts(IdPieces(ids)) == Ok(ids)
  {
    if ids != [] {
      var init, x := ids[..|ids| - 1], Last(ids);
      assert init + [x] == ids;
      var pieces := IdPieces(ids);
      ParseIdPieces(init);
      assert pieces[..|ids| - 1] == IdPieces(init);
      ParseIntToString(x);
      ParseIntsSnoc(pieces, init, x);
    }
  }

  lemma StripFormatted(query: string, rest: string)
    requires |query| > 0 && !IsSpace(query[0]) && |rest| > 0 && !IsSpace(Last(rest))
    ensures Strip(query + "\t" + rest + "\n") == query + "\t" + rest
  {
    var s := query + "\t" + rest;
    assert (s + "\n")[0] == query[0];
    assert (s + "\n")[..|s|] == s;
    assert StripLeft(s + "\n") == s + "\n";
    assert StripRight(s + "\n") == StripRight(s);
  }

  lemma IdPiecesAvoid(ids: seq<int>, c: char)
    requires IsSpace(c)
    ensures forall k :: 0 <= k < |ids| ==> c !in IdPieces(ids)[k]
  {
    forall k | 0 <= k < |ids|
      ensures c !in IdPieces(ids)[k]
    {
      IntToStringNoSpace(ids[k], c);
    }
  }

  /** The ids written with single spaces read back as the ids. */
  lemma FormatIdsParse(ids: seq<int>)
    requires |ids| >= 1
    ensures ParseInts(Split(Join(IdPieces(ids), ' '), ' ')) == Ok(ids)
  {
    IdPiecesAvoid(ids, ' ');
    JoinSplit(IdPieces(ids), ' ');
    ParseIdPieces(ids);
  }

  lemma TabFields(query: string, rest: string)
    requires |query| > 0 && !IsSpace(query[0]) && '\t' !in query
    requires |rest| > 0 && !IsSpace(Last(rest)) && '\t' !in rest
    ensures Split(Strip(query + "\t" + rest + "\n"), '\t') == [query, rest]
  {
    StripFormatted(query, rest);
    assert Join([query, rest], '\t') == query + "\t" + rest;
    JoinSplit([query, rest], '\t');
  }

  /** A formatted line strips and splits at the tab into the query and the ids as written. */
  lemma FormatLineFields(query: string, ids: seq<int>)
    requires |ids| >= 1 && |query| > 0 && !IsSpace(query[0]) && '\t' !in query
    ensures Split(Strip(FormatLine(query, ids)), '\t') == [query, Join(IdPieces(ids), ' ')]
  {
    var pieces := IdPieces(ids);
    var rest := Join(pieces, ' ');
    IdPiecesAvoid(ids, '\t');
    JoinAvoids(pieces, ' ', '\t');
    JoinLast(pieces, ' ');
    TabFields(query, rest);
  }

  /**
   * Round trip: a line written as `<query>TAB<id> <id> ...` reads back
   * as that query with the set of those ids.
   */
  lemma BenchmarkLineFormat(query: string, ids: seq<int>)
    requires |ids| >= 1 && |query| > 0 && !IsSpace(query[0]) && '\t' !in query
    ensures BenchmarkLine(FormatLine(query, ids)) == Ok((query, set x | x in ids))
  {
    FormatLineFields(query, ids);
    FormatIdsParse(ids);
  }

  /** Two formatted lines read back as their two queries. */
  lemma BenchmarkTwoLines(q1: string, ids1: seq<int>, q2: string, ids2: seq<int>, lines: seq<string>)
    requires |ids1| >= 1 && |q1| > 0 && !IsSpace(q1[0]) && '\t' !in q1
    requires |ids2| >= 1 && |q2| > 0 && !IsSpace(q2[0]) && '\t' !in q2
    requires lines == [FormatLine(q1, ids1), FormatLine(q2, ids2)]
    ensures Benchmark(lines) == Ok(map[q1 := set x | x in ids1][q2 := set x | x in ids2])
  {
    BenchmarkLineFormat(q1, ids1);
    BenchmarkLineFormat(q2, ids2);
    ReadTwoEntries(lines, BenchmarkLine);
  }

  /** The example benchmark file: two queries with their relevant ids. */
  lemma BenchmarkExample(q1: string, ids1: seq<int>, q2: string, ids2: seq<int>, lines: seq<string>)
    requires q1 == "animated film" && ids1 == [1, 3, 4] && q2 == "short film" && ids2 == [3, 4]
    requires lines == [FormatLine(q1, ids1), FormatLine(q2, ids2)]
    ensures Benchmark(lines) == Ok(map[q1 := {1, 3, 4}, q2 := {3, 4}])
  {
    ExampleIdSets(ids1, ids2);
    BenchmarkTwoLines(q1, ids1, q2, ids2, lines);
  }

  lemma ExampleIdSets(ids1: seq<int>, ids2: seq<int>)
    requires ids1 == [1, 3, 4] && ids2 == [3, 4]
    ensures (set x | x in ids1) == {1, 3, 4} && (set x | x in ids2) == {3, 4}
  {
  }

  lemma ReadTwoEntries(lines: seq<string>, parse: string -> Result<Entry>)
    requires |lines| == 2 && parse(lines[0]).Ok? && parse(lines[1]).Ok?
    ensures ReadEntries(lines, parse)
            == Ok(map[parse(lines[0]).value.0 := parse(lines[0]).value.1][parse(lines[1]).value.0 := parse(lines[1]).value.1])
  {
    assert lines[..0] == [] && lines[..2] == lines;
    ReadEntriesStep(lines, parse, 0);
    ReadEntriesStep(lines, parse, 1);
  }

  /** `read_benchmark(lines)`. */
  method ReadBenchmark(lines: seq<string>) returns (r: Result<map<string, set<int>>>)
    ensures r == Benchmark(lines)
  {
    var result: map<string, set<int>> := map[];
    for n := 0 to |lines|
      invariant Benchmark(lines[..n]) == Ok(result)
    {
      ReadEntriesStep(lines, BenchmarkLine, n);
      var line := Strip(lines[n]);
      var fields := Split(line, '\t');
      if |fields| < 2 {
        ReadEntriesFailPrefix(lines, BenchmarkLine, n + 1);
        return Fail(IndexError);
      }
      var ids := ParseInts(Split(fields[1], ' '));
      if ids.Fail? {
        ReadEntriesFailPrefix(lines, BenchmarkLine, n + 1);
        return Fail(ids.error);
      }
      result := result[fields[0] := set x | x in ids.value];
    }
    assert lines[..|lines|] == lines;
    return Ok(result);
  }
}
