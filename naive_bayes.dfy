/**
 * The naive Bayes text classifier of sheet 10: vocabularies numbered in
 * order of first appearance, the document-term triplets of a labelled
 * file, the choice of a label per document from its class scores, and
 * the per-class counts behind precision, recall and F1.
 *
 * Each line of a labelled file is `label<TAB>text`. The words of a text
 * are the maximal runs of word characters of its lower-cased form.
 */
module NaiveBayes {
  import opened Seqs
  import opened Outcomes
  import opened Strings

  /** A labelled example: (label, text). */
  type Example = (string, string)

  /** `label, text = line.strip().split('\t')`: exactly two pieces, or a ValueError. */
  function ParseExample(line: string): Result<Example>
  {
    var parts := Split(Strip(line), '\t');
    if |parts| == 2 then Ok((parts[0], parts[1])) else Fail(ValueError)
  }

  /**
   * A line parses exactly when its stripped form holds one tab; the two
   * pieces then hold no tab and give back the stripped line when joined
   * with one; otherwise the error is a ValueError.
   */
  lemma ParseExampleSpec(line: string)
    ensures var r := ParseExample(line);
      (r.Ok? <==> Count('\t', Strip(line)) == 1)
      && (r.Fail? ==> r.error == ValueError)
      && (r.Ok? ==> '\t' !in r.value.0 && '\t' !in r.value.1 && r.value.0 + "\t" + r.value.1 == Strip(line))
  {
    var parts := Split(Strip(line), '\t');
    if |parts| == 2 {
      SplitJoin(Strip(line), '\t');
      JoinPair(parts[0], parts[1], '\t');
      assert parts == [parts[0], parts[1]];
    }
  }

  /**
   * `re.sub("\\W+", " ", text.lower()).split()`: the non-word runs become
   * single spaces, so the pieces are the maximal runs of word characters.
   */
  function Words(text: string): seq<string>
  {
    Runs(LowerStr(text), IsWordChar)
  }

  /** Every line parsed, or the ValueError of the first line that does not parse. */
  function Examples(lines: seq<string>): (r: Result<seq<Example>>)
    ensures r.Ok? ==> |r.value| == |lines|
  {
    ParseLines(lines, ParseExample)
  }

  /** The lines parsed in order; the first line that does not parse ends the reading. */
  function ParseLines(lines: seq<string>, parse: string -> Result<Example>): (r: Result<seq<Example>>)
    ensures r.Ok? ==> |r.value| == |lines|
  {
    if lines == [] then Ok([])
    else
      match ParseLines(lines[..|lines| - 1], parse)
      case Fail(e) => Fail(e)
      case Ok(exs) =>
        match parse(Last(lines))
        case Fail(e) => Fail(e)
        case Ok(ex) => Ok(exs + [ex])
  }

  function LabelsOf(exs: seq<Example>): (labels: seq<string>)
    ensures |labels| == |exs| && forall i :: 0 <= i < |exs| ==> labels[i] == exs[i].0
  {
    seq(|exs|, i requires 0 <= i < |exs| => exs[i].0)
  }

  /** The words of all texts, in order. */
  function AllWords(exs: seq<Example>): seq<string>
  {
    if exs == [] then [] else AllWords(exs[..|exs| - 1]) + Words(Last(exs).1)
  }

  /** Reference numbering: each element gets its position in `order`. */
  function Numbering(order: seq<string>): map<string, int>
  {
    map x | x in order :: FirstIndex(x, order)
  }

  /** The two vocabularies `generate_vocabularies` returns, words first. */
  function Vocabularies(lines: seq<string>): Result<(map<string, int>, map<string, int>)>
  {
    match Examples(lines)
    case Fail(e) => Fail(e)
    case Ok(exs) => Ok((Numbering(FirstSeen(AllWords(exs))), Numbering(FirstSeen(LabelsOf(exs)))))
  }

  /** In a sequence without repetition, the element at `i` is first found at `i`. */
  lemma FirstIndexDistinct(f: seq<string>, i: nat)
    requires Distinct(f) && i < |f|
    ensures FirstIndex(f[i], f) == i
  {
  }

  /**
   * Numbering a sequence without repetition: exactly its elements are
   * numbered, the element at `i` gets `i`, and different elements get
   * different numbers in 0 .. |f| - 1.
   */
  lemma NumberingDense(f: seq<string>)
    requires Distinct(f)
    ensures forall x :: x in Numbering(f) <==> x in f
    ensures forall i :: 0 <= i < |f| ==> Numbering(f)[f[i]] == i
    ensures forall x :: x in Numbering(f) ==> 0 <= Numbering(f)[x] < |f| && f[Numbering(f)[x]] == x
  {
    forall i | 0 <= i < |f|
      ensures Numbering(f)[f[i]] == i
    {
      FirstIndexDistinct(f, i);
    }
  }

  /** A new element is numbered with the count of elements numbered so far. */
  lemma NumberingSnoc(f: seq<string>, x: string)
    requires Distinct(f) && x !in f
    ensures Numbering(f + [x]) == Numbering(f)[x := |f|]
  {
    var g := f + [x];
    forall y | y in f
      ensures FirstIndex(y, g) == FirstIndex(y, f)
    {
      assert g[..|f|] == f;
      FirstIndexPrefix(y, f, g);
    }
    assert forall y :: y in g <==> y in f || y == x;
  }

  /**
   * One more element scanned: the dictionary gains it with the running
   * counter as its id unless it already has it, and the counter goes up.
   */
  lemma VocabularyStep(s: seq<string>, x: string, m: map<string, int>, id: int)
    requires m == Numbering(FirstSeen(s)) && id == |FirstSeen(s)|
    ensures x in m <==> x in s
    ensures Numbering(FirstSeen(s + [x])) == if x in m then m else m[x := id]
    ensures |FirstSeen(s + [x])| == if x in m then id else id + 1
  {
    FirstSeenElements(s);
    FirstSeenSnoc(s, x);
    if x !in s {
      NumberingSnoc(FirstSeen(s), x);
    }
  }

  lemma AllWordsSnoc(exs: seq<Example>, e: Example)
    ensures AllWords(exs + [e]) == AllWords(exs) + Words(e.1)
  {
    assert (exs + [e])[..|exs|] == exs;
  }

  /**
   * `generate_vocabularies`: a ValueError for a line that is not a label
   * and a text; otherwise the words and the labels numbered 0, 1, ... in
   * order of first appearance.
   */
  method GenerateVocabularies(lines: seq<string>) returns (r: Result<(map<string, int>, map<string, int>)>)
    ensures r == Vocabularies(lines)
  {
    var classVocabulary: map<string, int> := map[];
    var wordVocabulary: map<string, int> := map[];
    var classId := 0;
    var wordId := 0;
    ghost var exs: seq<Example> := [];
    for n := 0 to |lines|
      invariant Examples(lines[..n]) == Ok(exs)
      invariant classVocabulary == Numbering(FirstSeen(LabelsOf(exs))) && classId == |FirstSeen(LabelsOf(exs))|
      invariant wordVocabulary == Numbering(FirstSeen(AllWords(exs))) && wordId == |FirstSeen(AllWords(exs))|
    {
      var parsed := ParseExample(lines[n]);
      ParseLinesStep(lines, n, ParseExample);
      if parsed.Fail? {
        ParseLinesFail(lines, n + 1, ParseExample);
        return Fail(ValueError);
      }
      var labelName, text := parsed.value.0, parsed.value.1;
      classVocabulary, classId := AddKey(LabelsOf(exs), labelName, classVocabulary, classId);
      LabelsOfSnoc(exs, (labelName, text));
      wordVocabulary, wordId := AddWords(AllWords(exs), Words(text), wordVocabulary, wordId);
      AllWordsSnoc(exs, (labelName, text));
      exs := exs + [(labelName, text)];
    }
    assert lines[..|lines|] == lines;
    return Ok((wordVocabulary, classVocabulary));
  }

  /** Once a line fails, the reading fails with its error. */
  lemma {:induction false} ParseLinesFail(lines: seq<string>, k: nat, parse: string -> Result<Example>)
    requires k <= |lines| && ParseLines(lines[..k], parse).Fail?
    ensures ParseLines(lines, parse) == ParseLines(lines[..k], parse)
    decreases |lines| - k
  {
    if k < |lines| {
      assert lines[..k + 1][..k] == lines[..k];
      ParseLinesFail(lines, k + 1, parse);
    } else {
      assert lines[..k] == lines;
    }
  }

  lemma ParseLinesStep(lines: seq<string>, n: nat, parse: string -> Result<Example>)
    requires n < |lines|
    ensures ParseLines(lines[..n + 1], parse) ==
              match ParseLines(lines[..n], parse)
              case Fail(e) => Fail(e)
              case Ok(exs) => (match parse(lines[n]) case Fail(e) => Fail(e) case Ok(ex) => Ok(exs + [ex]))
  {
    assert lines[..n + 1][..n] == lines[..n];
  }

  /** `if key not in vocabulary: vocabulary[key] = id; id += 1`. */
  method AddKey(ghost seen: seq<string>, key: string, vocabulary: map<string, int>, id: int)
    returns (vocabulary': map<string, int>, id': int)
    requires vocabulary == Numbering(FirstSeen(seen)) && id == |FirstSeen(seen)|
    ensures vocabulary' == Numbering(FirstSeen(seen + [key])) && id' == |FirstSeen(seen + [key])|
  {
    VocabularyStep(seen, key, vocabulary, id);
    vocabulary', id' := vocabulary, id;
    if key !in vocabulary {
      vocabulary' := vocabulary[key := id];
      id' := id + 1;
    }
  }

  lemma LabelsOfSnoc(exs: seq<Example>, e: Example)
    ensures LabelsOf(exs + [e]) == LabelsOf(exs) + [e.0]
  {
  }

  /** The inner loop of `generate_vocabularies`: the words of one text, in order. */
  method AddWords(ghost seen: seq<string>, words: seq<string>, vocabulary: map<string, int>, id: int)
    returns (vocabulary': map<string, int>, id': int)
    requires vocabulary == Numbering(FirstSeen(seen)) && id == |FirstSeen(seen)|
    ensures vocabulary' == Numbering(FirstSeen(seen + words)) && id' == |FirstSeen(seen + words)|
  {
    vocabulary', id' := vocabulary, id;
    assert seen + words[..0] == seen;
    for k := 0 to |words|
      invariant vocabulary' == Numbering(FirstSeen(seen + words[..k]))
      invariant id' == |FirstSeen(seen + words[..k])|
    {
      ScanStep(seen, words, k);
      vocabulary', id' := AddKey(seen + words[..k], words[k], vocabulary', id');
    }
    assert words[..|words|] == words;
  }

  /** The facts of a dictionary filled by scanning `s` with a running counter. */
  lemma NumberingFirstSeen(s: seq<string>)
    ensures var m := Numbering(FirstSeen(s));
      (forall x :: x in m <==> x in s)
      && (forall x :: x in m ==> 0 <= m[x] < |FirstSeen(s)|)
      && (forall x, y :: x in m && y in m && m[x] == m[y] ==> x == y)
      && (forall c :: 0 <= c < |FirstSeen(s)| ==> FirstSeen(s)[c] in m && m[FirstSeen(s)[c]] == c)
  {
    FirstSeenElements(s);
    NumberingDense(FirstSeen(s));
  }

  /** Ids follow the order of first appearance. */
  lemma NumberingOrder(s: seq<string>, x: string, y: string)
    requires x in s && y in s
    ensures var m := Numbering(FirstSeen(s));
      x in m && y in m && (m[x] < m[y] <==> FirstIndex(x, s) < FirstIndex(y, s))
  {
    var f := FirstSeen(s);
    FirstSeenElements(s);
    NumberingDense(f);
    var i, j := Numbering(f)[x], Numbering(f)[y];
    if i < j {
      FirstSeenOrder(s, i, j);
    } else if j < i {
      FirstSeenOrder(s, j, i);
    }
  }

  /** Scanning more never changes an id already given. */
  lemma {:induction false} NumberingExtend(s: seq<string>, t: seq<string>, x: string)
    requires x in Numbering(FirstSeen(s))
    ensures x in Numbering(FirstSeen(s + t))
    ensures Numbering(FirstSeen(s + t))[x] == Numbering(FirstSeen(s))[x]
  {
    if t == [] {
      assert s + t == s;
    } else {
      var init := t[..|t| - 1];
      NumberingExtend(s, init, x);
      VocabularyStep(s + init, Last(t), Numbering(FirstSeen(s + init)), |FirstSeen(s + init)|);
      assert s + t == (s + init) + [Last(t)];
    }
  }

  /** All lines are read when each parses, and then each one's pair is its parse. */
  lemma {:induction false} ParseLinesSpec(lines: seq<string>, parse: string -> Result<Example>)
    ensures ParseLines(lines, parse).Ok? <==> forall i :: 0 <= i < |lines| ==> parse(lines[i]).Ok?
    ensures ParseLines(lines, parse).Ok? ==>
              forall i :: 0 <= i < |lines| ==> parse(lines[i]) == Ok(ParseLines(lines, parse).value[i])
    ensures ParseLines(lines, parse).Fail? ==>
              exists i :: 0 <= i < |lines| && parse(lines[i]) == Fail(ParseLines(lines, parse).error)
  {
    if lines != [] {
      var init := lines[..|lines| - 1];
      ParseLinesSpec(init, parse);
      assert forall i :: 0 <= i < |init| ==> init[i] == lines[i];
      if ParseLines(init, parse).Fail? {
        var i :| 0 <= i < |init| && parse(init[i]) == Fail(ParseLines(init, parse).error);
        assert init[i] == lines[i];
      }
    }
  }

  /** `generate_vocabularies` fails, with a ValueError, exactly when some stripped line does not hold exactly one tab. */
  lemma VocabulariesFail(lines: seq<string>)
    ensures Vocabularies(lines).Fail? <==> exists i :: 0 <= i < |lines| && Count('\t', Strip(lines[i])) != 1
    ensures Vocabularies(lines).Fail? ==> Vocabularies(lines).error == ValueError
  {
    ParseLinesSpec(lines, ParseExample);
    assert Vocabularies(lines).Fail? <==> Examples(lines).Fail?;
    forall i | 0 <= i < |lines|
      ensures ParseExample(lines[i]).Ok? <==> Count('\t', Strip(lines[i])) == 1
      ensures ParseExample(lines[i]).Fail? ==> ParseExample(lines[i]).error == ValueError
    {
      ParseExampleSpec(lines[i]);
    }
  }

  /**
   * Otherwise each line is a (label, text) pair, and the vocabularies hold
   * exactly the labels and the words of the file, with distinct ids 0, 1,
   * ... (see NumberingFirstSeen and NumberingOrder).
   */
  lemma VocabulariesOk(lines: seq<string>, exs: seq<Example>, wv: map<string, int>, cv: map<string, int>)
    requires Vocabularies(lines) == Ok((wv, cv)) && Examples(lines) == Ok(exs)
    ensures forall i :: 0 <= i < |lines| ==> ParseExample(lines[i]) == Ok(exs[i])
    ensures forall l :: l in cv <==> l in LabelsOf(exs)
    ensures forall w :: w in wv <==> w in AllWords(exs)
    ensures forall l :: l in cv ==> 0 <= cv[l] < |FirstSeen(LabelsOf(exs))|
    ensures forall w :: w in wv ==> 0 <= wv[w] < |FirstSeen(AllWords(exs))|
  {
    ParseLinesSpec(lines, ParseExample);
    NumberingFirstSeen(LabelsOf(exs));
    NumberingFirstSeen(AllWords(exs));
  }

  /** A cell of the document-term matrix; `read_labeled_data` gives every cell the value 1.0. */
  datatype Cell = Cell(row: int, col: int)

  /** A sparse matrix of the given shape whose cells at the same position are summed. */
  datatype DocTermMatrix = DocTermMatrix(rows: nat, cols: nat, cells: seq<Cell>)

  /** The entry at (i, j): the number of cells there. */
  function Entry(m: DocTermMatrix, i: int, j: int): nat
  {
    Count(Cell(i, j), m.cells)
  }

  predicate InShape(c: Cell, rows: nat, cols: nat)
  {
    0 <= c.row < rows && 0 <= c.col < cols
  }

  /** `csr_matrix((value, (row, col)), shape=(rows, cols))`: a ValueError when a cell lies outside the shape. */
  function CsrMatrix(cells: seq<Cell>, rows: nat, cols: nat): Result<DocTermMatrix>
  {
    if forall k :: 0 <= k < |cells| ==> InShape(cells[k], rows, cols) then Ok(DocTermMatrix(rows, cols, cells))
    else Fail(ValueError)
  }

  /** The row the cells of a kept line go to. */
  datatype RowRule =
    | LineIndex     // the index of the line in the file
    | ExampleIndex  // the index of the line among the kept lines

  /** The lines whose label the class vocabulary knows, in order. */
  function Kept(exs: seq<Example>, cv: map<string, int>): (kept: seq<Example>)
    ensures |kept| <= |exs|
    ensures forall k :: 0 <= k < |kept| ==> kept[k].0 in cv
  {
    if exs == [] then []
    else Kept(exs[..|exs| - 1], cv) + if Last(exs).0 in cv then [Last(exs)] else []
  }

  /** The class id of each kept line. */
  function KeptLabels(exs: seq<Example>, cv: map<string, int>): (labels: seq<int>)
    ensures |labels| == |Kept(exs, cv)|
  {
    var kept := Kept(exs, cv);
    seq(|kept|, k requires 0 <= k < |kept| => cv[kept[k].0])
  }

  /** The ids of the words the word vocabulary knows, in order. */
  function KnownIds(words: seq<string>, wv: map<string, int>): (ids: seq<int>)
    ensures forall k :: 0 <= k < |ids| ==> ids[k] in wv.Values
  {
    if words == [] then []
    else KnownIds(words[..|words| - 1], wv) + if Last(words) in wv then [wv[Last(words)]] else []
  }

  function RowCells(ids: seq<int>, row: int): seq<Cell>
  {
    seq(|ids|, k requires 0 <= k < |ids| => Cell(row, ids[k]))
  }

  /** One cell per occurrence of a known word in a kept line, in the row the rule gives. */
  function Cells(exs: seq<Example>, cv: map<string, int>, wv: map<string, int>, rule: RowRule): seq<Cell>
  {
    if exs == [] then []
    else
      var init := exs[..|exs| - 1];
      var row := if rule == LineIndex then |init| else |Kept(init, cv)|;
      Cells(init, cv, wv, rule) + LineCells(Last(exs), cv, wv, row)
  }

  /** The cells of one line in row `row`: one per known word, none when its label is unknown. */
  function LineCells(e: Example, cv: map<string, int>, wv: map<string, int>, row: int): seq<Cell>
  {
    if e.0 in cv then RowCells(KnownIds(Words(e.1), wv), row) else []
  }

  /**
   * `read_labeled_data`: the document-term matrix of the kept lines, with
   * |kept lines| rows and |word vocabulary| columns, and their class ids.
   */
  function LabeledData(lines: seq<string>, cv: map<string, int>, wv: map<string, int>, rule: RowRule)
    : Result<(DocTermMatrix, seq<int>)>
  {
    match Examples(lines)
    case Fail(e) => Fail(e)
    case Ok(exs) =>
      match CsrMatrix(Cells(exs, cv, wv, rule), |Kept(exs, cv)|, |wv|)
      case Fail(e) => Fail(e)
      case Ok(m) => Ok((m, KeptLabels(exs, cv)))
  }

  lemma {:induction false} RowCellsCount(ids: seq<int>, row: int, i: int, j: int)
    ensures Count(Cell(i, j), RowCells(ids, row)) == if i == row then Count(j, ids) else 0
  {
    if ids != [] {
      var init := ids[..|ids| - 1];
      RowCellsCount(init, row, i, j);
      assert RowCells(ids, row)[..|init|] == RowCells(init, row);
    }
  }

  lemma KeptSnoc(exs: seq<Example>, e: Example, cv: map<string, int>)
    ensures Kept(exs + [e], cv) == Kept(exs, cv) + if e.0 in cv then [e] else []
  {
    assert (exs + [e])[..|exs|] == exs;
  }

  /**
   * With rows numbered among the kept lines, the entry (k, j) counts the
   * occurrences of word id j in the k-th kept line, and every other row
   * is empty: "the value at i, j is the number of times word id j is
   * present in document i".
   */
  lemma {:induction false} CellsCount(exs: seq<Example>, cv: map<string, int>, wv: map<string, int>, i: int, j: int)
    ensures Count(Cell(i, j), Cells(exs, cv, wv, ExampleIndex)) ==
              if 0 <= i < |Kept(exs, cv)| then Count(j, KnownIds(Words(Kept(exs, cv)[i].1), wv)) else 0
  {
    if exs != [] {
      var init, e := exs[..|exs| - 1], Last(exs);
      CellsCount(init, cv, wv, i, j);
      assert init + [e] == exs;
      KeptSnoc(init, e, cv);
      if e.0 in cv {
        CellsCountKeep(init, e, cv, wv, i, j);
      } else {
        assert Kept(exs, cv) == Kept(init, cv);
        assert Cells(exs, cv, wv, ExampleIndex) == Cells(init, cv, wv, ExampleIndex) + [];
        assert Cells(exs, cv, wv, ExampleIndex) == Cells(init, cv, wv, ExampleIndex);
        assert Count(Cell(i, j), Cells(exs, cv, wv, ExampleIndex)) == Count(Cell(i, j), Cells(init, cv, wv, ExampleIndex));
      }
    }
  }

  lemma CellsCountKeep(init: seq<Example>, e: Example, cv: map<string, int>, wv: map<string, int>, i: int, j: int)
    requires e.0 in cv
    requires Count(Cell(i, j), Cells(init, cv, wv, ExampleIndex)) ==
               if 0 <= i < |Kept(init, cv)| then Count(j, KnownIds(Words(Kept(init, cv)[i].1), wv)) else 0
    requires Kept(init + [e], cv) == Kept(init, cv) + [e]
    ensures Count(Cell(i, j), Cells(init + [e], cv, wv, ExampleIndex)) ==
              if 0 <= i < |Kept(init + [e], cv)| then Count(j, KnownIds(Words(Kept(init + [e], cv)[i].1), wv)) else 0
  {
    var exs := init + [e];
    assert exs[..|exs| - 1] == init;
    var before, kept0 := Cells(init, cv, wv, ExampleIndex), Kept(init, cv);
    var ids := KnownIds(Words(e.1), wv);
    assert Cells(exs, cv, wv, ExampleIndex) == before + RowCells(ids, |kept0|);
    CountAppend(Cell(i, j), before, RowCells(ids, |kept0|));
    RowCellsCount(ids, |kept0|, i, j);
    if 0 <= i < |kept0| {
      assert Kept(exs, cv)[i] == kept0[i];
    }
  }

  /** With rows numbered among the kept lines, every cell lies inside the shape when the word ids are below |wv|. */
  lemma {:induction false} CellsInShape(exs: seq<Example>, cv: map<string, int>, wv: map<string, int>)
    requires forall w :: w in wv ==> 0 <= wv[w] < |wv|
    ensures forall k :: 0 <= k < |Cells(exs, cv, wv, ExampleIndex)| ==>
              InShape(Cells(exs, cv, wv, ExampleIndex)[k], |Kept(exs, cv)|, |wv|)
  {
    if exs != [] {
      var init, e := exs[..|exs| - 1], Last(exs);
      CellsInShape(init, cv, wv);
      assert exs == init + [e];
      KeptSnoc(init, e, cv);
    }
  }

  lemma CellsSnoc(exs: seq<Example>, e: Example, cv: map<string, int>, wv: map<string, int>, rule: RowRule)
    ensures Cells(exs + [e], cv, wv, rule) ==
              Cells(exs, cv, wv, rule)
              + LineCells(e, cv, wv, if rule == LineIndex then |exs| else |Kept(exs, cv)|)
  {
    assert (exs + [e])[..|exs|] == exs;
  }

  lemma KeptLabelsSnoc(exs: seq<Example>, e: Example, cv: map<string, int>)
    ensures KeptLabels(exs + [e], cv) == KeptLabels(exs, cv) + if e.0 in cv then [cv[e.0]] else []
  {
    KeptSnoc(exs, e, cv);
  }

  /** One more line read, with rows numbered among the kept lines. */
  lemma ExampleStep(exs: seq<Example>, e: Example, cv: map<string, int>, wv: map<string, int>)
    ensures e.0 in cv ==>
              && Cells(exs + [e], cv, wv, ExampleIndex) == Cells(exs, cv, wv, ExampleIndex) + RowCells(KnownIds(Words(e.1), wv), |Kept(exs, cv)|)
              && KeptLabels(exs + [e], cv) == KeptLabels(exs, cv) + [cv[e.0]]
              && |Kept(exs + [e], cv)| == |Kept(exs, cv)| + 1
    ensures e.0 !in cv ==>
              && Cells(exs + [e], cv, wv, ExampleIndex) == Cells(exs, cv, wv, ExampleIndex)
              && KeptLabels(exs + [e], cv) == KeptLabels(exs, cv)
              && |Kept(exs + [e], cv)| == |Kept(exs, cv)|
  {
    CellsSnoc(exs, e, cv, wv, ExampleIndex);
    KeptLabelsSnoc(exs, e, cv);
    KeptSnoc(exs, e, cv);
  }

  /**
   * `read_labeled_data` with the row of a kept line's cells taken as its
   * index among the kept lines (`num_examples - 1`).
   */
  method ReadLabeledData(lines: seq<string>, classVocab: map<string, int>, wordVocab: map<string, int>)
    returns (r: Result<(DocTermMatrix, seq<int>)>)
    ensures r == LabeledData(lines, classVocab, wordVocab, ExampleIndex)
  {
    var labels: seq<int> := [];
    var cells: seq<Cell> := [];
    var numExamples := 0;
    var numCols := |wordVocab|;
    ghost var exs: seq<Example> := [];
    for i := 0 to |lines|
      invariant ParseLines(lines[..i], ParseExample) == Ok(exs)
      invariant numExamples == |Kept(exs, classVocab)| && labels == KeptLabels(exs, classVocab)
      invariant cells == Cells(exs, classVocab, wordVocab, ExampleIndex)
    {
      var parsed := ParseExample(lines[i]);
      ParseLinesStep(lines, i, ParseExample);
      if parsed.Fail? {
        ParseLinesFail(lines, i + 1, ParseExample);
        return Fail(ValueError);
      }
      var labelName, text := parsed.value.0, parsed.value.1;
      ExampleStep(exs, (labelName, text), classVocab, wordVocab);
      if labelName in classVocab {
        numExamples := numExamples + 1;
        labels := labels + [classVocab[labelName]];
        cells := AddWordCells(Words(text), wordVocab, numExamples - 1, cells);
      }
      exs := exs + [(labelName, text)];
    }
    assert lines[..|lines|] == lines;
    var x := CsrMatrix(cells, numExamples, numCols);
    if x.Fail? {
      return Fail(x.error);
    }
    return Ok((x.value, labels));
  }

  /** The inner loop of `read_labeled_data`: a cell (row, id) per known word. */
  method AddWordCells(words: seq<string>, wordVocab: map<string, int>, row: int, cells: seq<Cell>) returns (cells': seq<Cell>)
    ensures cells' == cells + RowCells(KnownIds(words, wordVocab), row)
  {
    cells' := cells;
    for k := 0 to |words|
      invariant cells' == cells + RowCells(KnownIds(words[..k], wordVocab), row)
    {
      var w := words[k];
      assert words[..k + 1][..k] == words[..k];
      if w in wordVocab {
        var ids := KnownIds(words[..k], wordVocab);
        assert RowCells(ids + [wordVocab[w]], row) == RowCells(ids, row) + [Cell(row, wordVocab[w])];
        cells' := cells' + [Cell(row, wordVocab[w])];
      }
    }
    assert words[..|words|] == words;
  }

  /**
   * With rows numbered among the kept lines, reading a file of label-text
   * lines never fails when the word ids are below |wv| (as
   * `generate_vocabularies` gives them); the matrix has a row per kept
   * line, the labels are their class ids, and the entry (k, j) counts word
   * id j in the k-th kept line.
   */
  lemma LabeledDataSpec(lines: seq<string>, exs: seq<Example>, cv: map<string, int>, wv: map<string, int>, i: int, j: int)
    requires Examples(lines) == Ok(exs)
    requires forall w :: w in wv ==> 0 <= wv[w] < |wv|
    ensures LabeledData(lines, cv, wv, ExampleIndex).Ok?
    ensures var (m, labels) := LabeledData(lines, cv, wv, ExampleIndex).value;
      var kept := Kept(exs, cv);
      m.rows == |kept| == |labels| && m.cols == |wv|
      && (forall k :: 0 <= k < |kept| ==> labels[k] == cv[kept[k].0])
      && Entry(m, i, j) == if 0 <= i < |kept| then Count(j, KnownIds(Words(kept[i].1), wv)) else 0
  {
    CellsInShape(exs, cv, wv);
    CellsCount(exs, cv, wv, i, j);
  }

  /** When every label is known no line is skipped. */
  lemma {:induction false} KeptAll(exs: seq<Example>, cv: map<string, int>)
    requires forall k :: 0 <= k < |exs| ==> exs[k].0 in cv
    ensures Kept(exs, cv) == exs
  {
    if exs != [] {
      var init := exs[..|exs| - 1];
      KeptAll(init, cv);
    }
  }

  /** ... and then the two row rules agree. */
  lemma {:induction false} RowRulesAgree(exs: seq<Example>, cv: map<string, int>, wv: map<string, int>)
    requires forall k :: 0 <= k < |exs| ==> exs[k].0 in cv
    ensures Cells(exs, cv, wv, LineIndex) == Cells(exs, cv, wv, ExampleIndex)
  {
    if exs != [] {
      var init, e := exs[..|exs| - 1], Last(exs);
      RowRulesAgree(init, cv, wv);
      KeptAll(init, cv);
      var a := Cells(init, cv, wv, LineIndex);
      assert Cells(exs, cv, wv, LineIndex) == a + LineCells(e, cv, wv, |init|);
      assert Cells(exs, cv, wv, ExampleIndex) == a + LineCells(e, cv, wv, |Kept(init, cv)|);
    }
  }

  /**
   * As written, a kept line after a skipped one puts its cells in the row
   * of its line index, past the |kept lines| rows of the matrix, and the
   * matrix construction fails; numbered among the kept lines, the same
   * file gives the one-row matrix with its one word.
   */
  lemma ReadLabeledDataAsWritten(lines: seq<string>, cv: map<string, int>, wv: map<string, int>)
    requires lines == ["x\tfoo", "a\tfoo"] && cv == map["a" := 0] && wv == map["foo" := 0]
    ensures LabeledData(lines, cv, wv, LineIndex) == Fail(ValueError)
    ensures LabeledData(lines, cv, wv, ExampleIndex) == Ok((DocTermMatrix(1, 1, [Cell(0, 0)]), [0]))
  {
    var e0, e1 := ("x", "foo"), ("a", "foo");
    assert "x" + "\t" + "foo" == "x\tfoo" && "a" + "\t" + "foo" == "a\tfoo";
    TwoLines(lines, "x", "foo", "a", "foo");
    FooWords(wv);
    SkipThenKeepData(lines, e0, e1, cv, wv);
  }

  /** A skipped line and then a kept one holding one word, the only known one, with id 0. */
  lemma SkipThenKeepData(lines: seq<string>, e0: Example, e1: Example, cv: map<string, int>, wv: map<string, int>)
    requires Examples(lines) == Ok([e0, e1])
    requires e0.0 !in cv && e1.0 in cv && cv[e1.0] == 0
    requires KnownIds(Words(e1.1), wv) == [0] && |wv| == 1
    ensures LabeledData(lines, cv, wv, LineIndex) == Fail(ValueError)
    ensures LabeledData(lines, cv, wv, ExampleIndex) == Ok((DocTermMatrix(1, 1, [Cell(0, 0)]), [0]))
  {
    SkipThenKeepLine(lines, e0, e1, cv, wv);
    SkipThenKeepExample(lines, e0, e1, cv, wv);
  }

  lemma SkipThenKeepLine(lines: seq<string>, e0: Example, e1: Example, cv: map<string, int>, wv: map<string, int>)
    requires Examples(lines) == Ok([e0, e1])
    requires e0.0 !in cv && e1.0 in cv
    requires KnownIds(Words(e1.1), wv) == [0] && |wv| == 1
    ensures LabeledData(lines, cv, wv, LineIndex) == Fail(ValueError)
  {
    SkipThenKeep(e0, e1, cv, wv, LineIndex);
    assert RowCells([0], 1) == [Cell(1, 0)];
    LabeledDataOf(lines, [e0, e1], cv, wv, LineIndex, [Cell(1, 0)], 1);
    assert !InShape([Cell(1, 0)][0], 1, 1);
  }

  lemma SkipThenKeepExample(lines: seq<string>, e0: Example, e1: Example, cv: map<string, int>, wv: map<string, int>)
    requires Examples(lines) == Ok([e0, e1])
    requires e0.0 !in cv && e1.0 in cv && cv[e1.0] == 0
    requires KnownIds(Words(e1.1), wv) == [0] && |wv| == 1
    ensures LabeledData(lines, cv, wv, ExampleIndex) == Ok((DocTermMatrix(1, 1, [Cell(0, 0)]), [0]))
  {
    SkipThenKeep(e0, e1, cv, wv, ExampleIndex);
    assert RowCells([0], 0) == [Cell(0, 0)];
    LabeledDataOf(lines, [e0, e1], cv, wv, ExampleIndex, [Cell(0, 0)], 1);
  }

  lemma LabeledDataOf(lines: seq<string>, exs: seq<Example>, cv: map<string, int>, wv: map<string, int>,
                      rule: RowRule, cells: seq<Cell>, rows: nat)
    requires Examples(lines) == Ok(exs) && Cells(exs, cv, wv, rule) == cells && |Kept(exs, cv)| == rows
    ensures LabeledData(lines, cv, wv, rule) ==
              if forall k :: 0 <= k < |cells| ==> InShape(cells[k], rows, |wv|)
              then Ok((DocTermMatrix(rows, |wv|, cells), KeptLabels(exs, cv)))
              else Fail(ValueError)
  {
  }

  /** Two lines that are each a label, a tab and a text, without surrounding whitespace. */
  lemma TwoLines(lines: seq<string>, l0: string, t0: string, l1: string, t1: string)
    requires lines == [l0 + "\t" + t0, l1 + "\t" + t1]
    requires '\t' !in l0 && '\t' !in t0 && '\t' !in l1 && '\t' !in t1
    requires l0 != [] && t0 != [] && !IsSpace(l0[0]) && !IsSpace(Last(t0))
    requires l1 != [] && t1 != [] && !IsSpace(l1[0]) && !IsSpace(Last(t1))
    ensures Examples(lines) == Ok([(l0, t0), (l1, t1)])
  {
    ExampleLine(lines[0], l0, t0);
    ExampleLine(lines[1], l1, t1);
    ParseLinesPair(lines[0], lines[1], (l0, t0), (l1, t1), ParseExample);
  }

  /** A skipped line and then a kept one. */
  lemma SkipThenKeep(e0: Example, e1: Example, cv: map<string, int>, wv: map<string, int>, rule: RowRule)
    requires e0.0 !in cv && e1.0 in cv
    ensures Kept([e0, e1], cv) == [e1] && KeptLabels([e0, e1], cv) == [cv[e1.0]]
    ensures Cells([e0, e1], cv, wv, rule) == RowCells(KnownIds(Words(e1.1), wv), if rule == LineIndex then 1 else 0)
  {
    assert [e0, e1][..1] == [e0] && [e0][..0] == [];
    assert Kept([e0], cv) == [];
    assert Cells([e0], cv, wv, rule) == [];
  }

  lemma ParseLinesPair(a: string, b: string, x: Example, y: Example, parse: string -> Result<Example>)
    requires parse(a) == Ok(x) && parse(b) == Ok(y)
    ensures ParseLines([a, b], parse) == Ok([x, y])
  {
    assert [a, b][..1] == [a] && [a][..0] == [];
    assert Last([a]) == a && Last([a, b]) == b;
    assert ParseLines([], parse) == Ok([]);
    assert [] + [x] == [x];
    assert ParseLines([a], parse) == Ok([x]);
    assert [x] + [y] == [x, y];
  }

  lemma JoinPair(l: string, t: string, sep: char)
    ensures Join([l, t], sep) == l + [sep] + t
  {
    assert [l, t][..1] == [l];
  }

  /** A line that is a label, a tab and a text, without surrounding whitespace, parses to that pair. */
  lemma ExampleLine(line: string, l: string, t: string)
    requires line == l + "\t" + t && '\t' !in l && '\t' !in t
    requires l != [] && t != [] && !IsSpace(l[0]) && !IsSpace(Last(t))
    ensures ParseExample(line) == Ok((l, t))
  {
    assert line[0] == l[0] && Last(line) == Last(t);
    StripUnchanged(line);
    JoinPair(l, t, '\t');
    JoinSplit([l, t], '\t');
    assert Split(Strip(line), '\t') == [l, t];
  }

  lemma FooWords(wv: map<string, int>)
    requires wv == map["foo" := 0]
    ensures KnownIds(Words("foo"), wv) == [0]
  {
    var s := LowerStr("foo");
    assert s == "foo";
    RunsWhole(s, IsWordChar);
  }
}
