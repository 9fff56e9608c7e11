/**
 * The classifying half of the sheet-10 naive Bayes: choosing a label per
 * document from its row of class scores, and counting, per class, the
 * true labels, the predicted labels and the agreements behind precision,
 * recall and F1.
 *
 * The score rows are `x.dot(p_wc.T)` in the source; the product and the
 * training that produces `p_wc` are floating-point numerics, so the rows
 * are given here as a rectangular matrix of reals, `width` columns wide.
 */
module NaiveBayesClassifier {
  import opened Seqs
  import opened Outcomes

  /** Every row of `scores` has `width` columns (a numpy matrix). */
  predicate Rectangular(scores: seq<seq<real>>, width: nat)
  {
    forall i :: 0 <= i < |scores| ==> |scores[i]| == width
  }

  // ---------------------------------------------------------------------
  // Choosing a label per row
  // ---------------------------------------------------------------------

  /**
   * The column the selection loop of `predict` ends on after scanning
   * columns 1 .. n-1: `p_max` is set to column 0 and never updated, so the
   * result is the last column that beats column 0, or 0.
   */
  function LastAboveUpTo(row: seq<real>, n: nat): nat
    requires 1 <= n <= |row|
  {
    if n == 1 then 0
    else if row[0] < row[n - 1] then n - 1
    else LastAboveUpTo(row, n - 1)
  }

  /** The label the selection loop of `predict` chooses, as written (0 for an empty row). */
  function LastAbove(row: seq<real>): nat
  {
    if |row| == 0 then 0 else LastAboveUpTo(row, |row|)
  }

  /** The running maximum over columns 0 .. n-1, updated on a strictly larger score. */
  function ArgMaxUpTo(row: seq<real>, n: nat): (m: nat)
    requires 1 <= n <= |row|
    ensures m < n
  {
    if n == 1 then 0
    else
      var m := ArgMaxUpTo(row, n - 1);
      if row[m] < row[n - 1] then n - 1 else m
  }

  /** The label the selection loop evidently intends: the first column of highest score. */
  function ArgMax(row: seq<real>): nat
  {
    if |row| == 0 then 0 else ArgMaxUpTo(row, |row|)
  }

  lemma {:induction false} LastAboveUpToSpec(row: seq<real>, n: nat)
    requires 1 <= n <= |row|
    ensures LastAboveUpTo(row, n) < n
    ensures LastAboveUpTo(row, n) == 0 <==> forall j :: 1 <= j < n ==> !(row[0] < row[j])
    ensures LastAboveUpTo(row, n) > 0 ==> row[0] < row[LastAboveUpTo(row, n)]
    ensures forall j :: LastAboveUpTo(row, n) < j < n ==> !(row[0] < row[j])
  {
    if n > 1 && !(row[0] < row[n - 1]) {
      LastAboveUpToSpec(row, n - 1);
    }
  }

  /**
   * The as-written choice: the last column j >= 1 whose score exceeds
   * column 0's, or 0 when none does.
   */
  lemma LastAboveSpec(row: seq<real>)
    requires |row| >= 1
    ensures LastAbove(row) < |row|
    ensures LastAbove(row) == 0 <==> forall j :: 1 <= j < |row| ==> !(row[0] < row[j])
    ensures LastAbove(row) > 0 ==> row[0] < row[LastAbove(row)]
    ensures forall j :: LastAbove(row) < j < |row| ==> !(row[0] < row[j])
  {
    LastAboveUpToSpec(row, |row|);
  }

  lemma {:induction false} ArgMaxUpToSpec(row: seq<real>, n: nat)
    requires 1 <= n <= |row|
    ensures forall j :: 0 <= j < n ==> row[j] <= row[ArgMaxUpTo(row, n)]
    ensures forall j :: 0 <= j < ArgMaxUpTo(row, n) ==> row[j] < row[ArgMaxUpTo(row, n)]
  {
    if n > 1 {
      ArgMaxUpToSpec(row, n - 1);
    }
  }

  /** The corrected choice is a column of highest score, and the first such column. */
  lemma ArgMaxSpec(row: seq<real>)
    requires |row| >= 1
    ensures ArgMax(row) < |row|
    ensures forall j :: 0 <= j < |row| ==> row[j] <= row[ArgMax(row)]
    ensures forall j :: 0 <= j < ArgMax(row) ==> row[j] < row[ArgMax(row)]
  {
    ArgMaxUpToSpec(row, |row|);
  }

  /** With at most two classes the as-written choice is the highest-scoring one. */
  lemma ChoicesAgreeOnTwoColumns(row: seq<real>)
    requires 1 <= |row| <= 2
    ensures LastAbove(row) == ArgMax(row)
  {
    if |row| == 2 {
      assert LastAboveUpTo(row, 2) == if row[0] < row[1] then 1 else 0;
      assert ArgMaxUpTo(row, 2) == if row[0] < row[1] then 1 else 0;
    }
  }

  /** Scores 0, 2, 1: column 2 beats column 0 last, but column 1 is the best. */
  lemma ChoicesDiffer(row: seq<real>)
    requires |row| == 3 && row[0] < row[2] < row[1]
    ensures LastAbove(row) == 2 && ArgMax(row) == 1
  {
    assert LastAboveUpTo(row, 3) == 2;
    assert ArgMaxUpTo(row, 2) == 1;
  }

  /** The scores [0.0, 2.0, 1.0] are labelled 2 as written but 1 as intended. */
  lemma PredictAsWrittenMisses()
    ensures Predictions([[0.0, 2.0, 1.0]], 3, LastAbove) == Ok([2])
    ensures Predictions([[0.0, 2.0, 1.0]], 3, ArgMax) == Ok([1])
  {
    var row := [0.0, 2.0, 1.0];
    ChoicesDiffer(row);
    assert Predictions([row], 3, LastAbove).value == [LastAbove(row)];
    assert Predictions([row], 3, ArgMax).value == [ArgMax(row)];
  }

  /**
   * One label per row, chosen by `choose`; a matrix with rows but no
   * columns fails, since `helper[i, 0]` is out of range.
   */
  function Predictions(scores: seq<seq<real>>, width: nat, choose: seq<real> -> nat): Result<seq<nat>>
  {
    if |scores| > 0 && width == 0 then Fail(IndexError)
    else Ok(seq(|scores|, i requires 0 <= i < |scores| => choose(scores[i])))
  }

  /** `predict` as written: `p_max` keeps column 0's score. */
  method PredictAsWritten(scores: seq<seq<real>>, width: nat) returns (r: Result<seq<nat>>)
    requires Rectangular(scores, width)
    ensures r == Predictions(scores, width, LastAbove)
  {
    var res := new nat[|scores|](_ => 0);
    for i := 0 to |scores|
      invariant forall k :: 0 <= k < i ==> res[k] == LastAbove(scores[k])
      invariant forall k :: i <= k < |scores| ==> res[k] == 0
      invariant i == 0 || width > 0
    {
      if width == 0 {
        return Fail(IndexError);
      }
      var pMax := scores[i][0];
      for j := 1 to width
        invariant res[i] == LastAboveUpTo(scores[i], j)
        invariant forall k :: 0 <= k < i ==> res[k] == LastAbove(scores[k])
        invariant forall k :: i < k < |scores| ==> res[k] == 0
      {
        if pMax < scores[i][j] {
          res[i] := j;
        }
      }
    }
    assert res[..] == Predictions(scores, width, LastAbove).value;
    r := Ok(res[..]);
  }

  /** `predict` with the running maximum updated along with the label. */
  method Predict(scores: seq<seq<real>>, width: nat) returns (r: Result<seq<nat>>)
    requires Rectangular(scores, width)
    ensures r == Predictions(scores, width, ArgMax)
  {
    var res := new nat[|scores|](_ => 0);
    for i := 0 to |scores|
      invariant forall k :: 0 <= k < i ==> res[k] == ArgMax(scores[k])
      invariant forall k :: i <= k < |scores| ==> res[k] == 0
      invariant i == 0 || width > 0
    {
      if width == 0 {
        return Fail(IndexError);
      }
      var pMax := scores[i][0];
      for j := 1 to width
        invariant res[i] == ArgMaxUpTo(scores[i], j) && pMax == scores[i][res[i]]
        invariant forall k :: 0 <= k < i ==> res[k] == ArgMax(scores[k])
        invariant forall k :: i < k < |scores| ==> res[k] == 0
      {
        if pMax < scores[i][j] {
          res[i] := j;
          pMax := scores[i][j];
        }
      }
    }
    assert res[..] == Predictions(scores, width, ArgMax).value;
    r := Ok(res[..]);
  }

  // ---------------------------------------------------------------------
  // Counting per class
  // ---------------------------------------------------------------------

  /**
   * The three rows of `helper` in `evaluate`: per class, the number of
   * true labels, of predicted labels and of documents where both agree.
   */
  datatype Table = Table(actual: seq<nat>, predicted: seq<nat>, agreed: seq<nat>)

  /** Number of documents among the first |y| whose true and predicted labels are both `c`. */
  function Agreements(c: int, y: seq<nat>, pred: seq<nat>): nat
    requires |y| <= |pred|
  {
    if y == [] then 0
    else Agreements(c, y[..|y| - 1], pred) + (if Last(y) == c && pred[|y| - 1] == c then 1 else 0)
  }

  /**
   * The number of columns of `helper` after the counting loop: 2 to begin
   * with, grown to one past the largest true or predicted label seen.
   */
  function TableWidth(y: seq<nat>, pred: seq<nat>): nat
    requires |y| <= |pred|
  {
    if y == [] then 2
    else
      var w := TableWidth(y[..|y| - 1], pred);
      var cMax := if Last(y) >= pred[|y| - 1] then Last(y) else pred[|y| - 1];
      if cMax >= w then cMax + 1 else w
  }

  /** The table the counting loop of `evaluate` fills in. */
  function TableOf(y: seq<nat>, pred: seq<nat>): Table
    requires |y| <= |pred|
  {
    var w := TableWidth(y, pred);
    Table(seq(w, c => Count(c, y)), seq(w, c => Count(c, pred[..|y|])), seq(w, c => Agreements(c, y, pred)))
  }

  function Zeros(n: nat): (z: seq<nat>)
    ensures |z| == n && forall i :: 0 <= i < n ==> z[i] == 0
  {
    seq(n, _ => 0)
  }

  /** The table is at least two wide and one past every true and predicted label, and no wider. */
  lemma {:induction false} TableWidthSpec(y: seq<nat>, pred: seq<nat>)
    requires |y| <= |pred|
    ensures TableWidth(y, pred) >= 2
    ensures forall k :: 0 <= k < |y| ==> y[k] < TableWidth(y, pred) && pred[k] < TableWidth(y, pred)
    ensures TableWidth(y, pred) == 2 ||
            exists k :: 0 <= k < |y| && (y[k] + 1 == TableWidth(y, pred) || pred[k] + 1 == TableWidth(y, pred))
  {
    if y != [] {
      var init := y[..|y| - 1];
      TableWidthSpec(init, pred);
      var w := TableWidth(y, pred);
      assert forall k :: 0 <= k < |init| ==> y[k] == init[k];
      if w != TableWidth(init, pred) {
        assert y[|y| - 1] + 1 == w || pred[|y| - 1] + 1 == w;
      } else if w != 2 {
        var k :| 0 <= k < |init| && (init[k] + 1 == w || pred[k] + 1 == w);
        assert y[k] == init[k];
      }
    }
  }

  /** The counting loop of `evaluate`; it fails when there are fewer predictions than labels. */
  method Tally(pred: seq<nat>, y: seq<nat>) returns (r: Result<Table>)
    ensures |pred| < |y| ==> r == Fail(IndexError)
    ensures |y| <= |pred| ==> r == Ok(TableOf(y, pred))
  {
    var actual, predicted, agreed := [0, 0], [0, 0], [0, 0];
    for i := 0 to |y|
      invariant i <= |pred|
      invariant |actual| == |predicted| == |agreed| == TableWidth(y[..i], pred)
      invariant forall c :: 0 <= c < |actual| ==> actual[c] == Count(c, y[..i])
      invariant forall c :: 0 <= c < |actual| ==> predicted[c] == Count(c, pred[..i])
      invariant forall c :: 0 <= c < |actual| ==> agreed[c] == Agreements(c, y[..i], pred)
    {
      if i >= |pred| {
        return Fail(IndexError);
      }
      actual, predicted, agreed := TallyOne(y[..i], pred[..i], pred, y[i], pred[i], actual, predicted, agreed);
      assert y[..i + 1] == y[..i] + [y[i]] && pred[..i + 1] == pred[..i] + [pred[i]];
    }
    assert y[..|y|] == y;
    var t := TableOf(y, pred);
    assert actual == t.actual && predicted == t.predicted && agreed == t.agreed;
    r := Ok(Table(actual, predicted, agreed));
  }

  /** One round of the counting loop: grow the table if need be and count one document. */
  method TallyOne(ys: seq<nat>, ps: seq<nat>, pred: seq<nat>, truth: nat, guess: nat,
                  actual: seq<nat>, predicted: seq<nat>, agreed: seq<nat>)
    returns (actual': seq<nat>, predicted': seq<nat>, agreed': seq<nat>)
    requires |ys| == |ps| < |pred| && ps == pred[..|ys|] && pred[|ys|] == guess
    requires |actual| == |predicted| == |agreed| == TableWidth(ys, pred)
    requires forall c :: 0 <= c < |actual| ==> actual[c] == Count(c, ys)
    requires forall c :: 0 <= c < |actual| ==> predicted[c] == Count(c, ps)
    requires forall c :: 0 <= c < |actual| ==> agreed[c] == Agreements(c, ys, pred)
    ensures |actual'| == |predicted'| == |agreed'| == TableWidth(ys + [truth], pred)
    ensures forall c :: 0 <= c < |actual'| ==> actual'[c] == Count(c, ys + [truth])
    ensures forall c :: 0 <= c < |actual'| ==> predicted'[c] == Count(c, ps + [guess])
    ensures forall c :: 0 <= c < |actual'| ==> agreed'[c] == Agreements(c, ys + [truth], pred)
  {
    actual', predicted', agreed' := Grow(ys, ps, pred, truth, guess, actual, predicted, agreed);
    assert (ys + [truth])[..|ys|] == ys;
    actual' := actual'[truth := actual'[truth] + 1];
    predicted' := predicted'[guess := predicted'[guess] + 1];
    if truth == guess {
      agreed' := agreed'[truth := agreed'[truth] + 1];
    }
  }

  /** `numpy.concatenate` with zero columns until the larger of the two labels fits. */
  method Grow(ys: seq<nat>, ps: seq<nat>, pred: seq<nat>, truth: nat, guess: nat,
              actual: seq<nat>, predicted: seq<nat>, agreed: seq<nat>)
    returns (actual': seq<nat>, predicted': seq<nat>, agreed': seq<nat>)
    requires |ys| == |ps| < |pred| && ps == pred[..|ys|] && pred[|ys|] == guess
    requires |actual| == |predicted| == |agreed| == TableWidth(ys, pred)
    requires forall c :: 0 <= c < |actual| ==> actual[c] == Count(c, ys)
    requires forall c :: 0 <= c < |actual| ==> predicted[c] == Count(c, ps)
    requires forall c :: 0 <= c < |actual| ==> agreed[c] == Agreements(c, ys, pred)
    ensures |actual'| == |predicted'| == |agreed'| == TableWidth(ys + [truth], pred)
    ensures truth < |actual'| && guess < |actual'|
    ensures forall c :: 0 <= c < |actual'| ==> actual'[c] == Count(c, ys)
    ensures forall c :: 0 <= c < |actual'| ==> predicted'[c] == Count(c, ps)
    ensures forall c :: 0 <= c < |actual'| ==> agreed'[c] == Agreements(c, ys, pred)
  {
    assert (ys + [truth])[..|ys|] == ys;
    actual', predicted', agreed' := actual, predicted, agreed;
    var cMax := if truth >= guess then truth else guess;
    if cMax >= |actual'| {
      var pad := cMax + 1 - |actual'|;
      TableWidthSpec(ys, pred);
      UnseenCounts(ys, ps, pred, |actual'|);
      actual', predicted', agreed' := actual' + Zeros(pad), predicted' + Zeros(pad), agreed' + Zeros(pad);
    }
  }

  /** Classes at or beyond the current width have not been counted yet. */
  lemma UnseenCounts(ys: seq<nat>, ps: seq<nat>, pred: seq<nat>, w: nat)
    requires |ys| == |ps| <= |pred| && ps == pred[..|ys|]
    requires forall k :: 0 <= k < |ys| ==> ys[k] < w && pred[k] < w
    ensures forall c :: c >= w ==> Count(c, ys) == 0 && Count(c, ps) == 0 && Agreements(c, ys, pred) == 0
  {
    forall c | c >= w
      ensures Count(c, ys) == 0 && Count(c, ps) == 0 && Agreements(c, ys, pred) == 0
    {
      assert c !in ys && c !in ps;
      AgreementsBound(c, ys, pred);
    }
  }

  /** Agreements on `c` are at most the true labels `c` and at most the predicted labels `c`. */
  lemma {:induction false} AgreementsBound(c: int, y: seq<nat>, pred: seq<nat>)
    requires |y| <= |pred|
    ensures Agreements(c, y, pred) <= Count(c, y)
    ensures Agreements(c, y, pred) <= Count(c, pred[..|y|])
  {
    if y != [] {
      AgreementsBound(c, y[..|y| - 1], pred);
      assert pred[..|y|][..|y| - 1] == pred[..|y| - 1];
    }
  }

  function Sum(s: seq<nat>): nat
  {
    if s == [] then 0 else Sum(s[..|s| - 1]) + Last(s)
  }

  /** Sum over the classes 0 .. w-1 of their occurrence counts in `s`. */
  function SumCounts(s: seq<nat>, w: nat): nat
  {
    if w == 0 then 0 else SumCounts(s, w - 1) + Count(w - 1, s)
  }

  lemma {:induction false} SumCountsSnoc(s: seq<nat>, w: nat)
    requires s != []
    ensures SumCounts(s, w) == SumCounts(s[..|s| - 1], w) + (if Last(s) < w then 1 else 0)
  {
    if w > 0 {
      SumCountsSnoc(s, w - 1);
    }
  }

  lemma {:induction false} SumCountsAll(s: seq<nat>, w: nat)
    requires forall k :: 0 <= k < |s| ==> s[k] < w
    ensures SumCounts(s, w) == |s|
  {
    if s != [] {
      SumCountsSnoc(s, w);
      SumCountsAll(s[..|s| - 1], w);
    } else if w > 0 {
      SumCountsEmpty(w);
    }
  }

  lemma {:induction false} SumCountsEmpty(w: nat)
    ensures SumCounts([], w) == 0
  {
    if w > 0 {
      SumCountsEmpty(w - 1);
    }
  }

  lemma {:induction false} SumPrefixCounts(h: seq<nat>, s: seq<nat>, w: nat)
    requires w <= |h|
    requires forall c :: 0 <= c < |h| ==> h[c] == Count(c, s)
    ensures Sum(h[..w]) == SumCounts(s, w)
  {
    if w > 0 {
      assert h[..w][..w - 1] == h[..w - 1];
      SumPrefixCounts(h, s, w - 1);
    }
  }

  /** A histogram of `s` wide enough for all its elements sums to |s|. */
  lemma HistogramSum(h: seq<nat>, s: seq<nat>)
    requires forall c :: 0 <= c < |h| ==> h[c] == Count(c, s)
    requires forall k :: 0 <= k < |s| ==> s[k] < |h|
    ensures Sum(h) == |s|
  {
    SumPrefixCounts(h, s, |h|);
    assert h[..|h|] == h;
    SumCountsAll(s, |h|);
  }

  /**
   * The counting loop's table: each of the first two rows sums to the
   * number of documents, and no class has more agreements than true or
   * predicted labels.
   */
  lemma TableSums(y: seq<nat>, pred: seq<nat>)
    requires |y| <= |pred|
    ensures Sum(TableOf(y, pred).actual) == |y|
    ensures Sum(TableOf(y, pred).predicted) == |y|
    ensures forall c :: 0 <= c < |TableOf(y, pred).agreed| ==>
              TableOf(y, pred).agreed[c] <= TableOf(y, pred).actual[c] &&
              TableOf(y, pred).agreed[c] <= TableOf(y, pred).predicted[c]
  {
    var t := TableOf(y, pred);
    TableWidthSpec(y, pred);
    HistogramSum(t.actual, y);
    HistogramSum(t.predicted, pred[..|y|]);
    forall c | 0 <= c < |t.agreed|
      ensures t.agreed[c] <= t.actual[c] && t.agreed[c] <= t.predicted[c]
    {
      AgreementsBound(c, y, pred);
    }
  }

  // ---------------------------------------------------------------------
  // Precision, recall and F1
  // ---------------------------------------------------------------------

  /** A quotient of counts; None where numpy yields nan (0 / 0) or inf. */
  function Ratio(a: nat, b: nat): (q: Option<real>)
  {
    if b == 0 then None else Some(a as real / b as real)
  }

  /** The F-measure of a precision and a recall; None where numpy yields nan. */
  function F1(p: Option<real>, r: Option<real>): Option<real>
  {
    if p.Some? && r.Some? && p.value + r.value != 0.0
    then Some(HarmonicMean(p.value, r.value))
    else None
  }

  /** The three dictionaries `evaluate` returns, keyed by class id. */
  datatype Scores = Scores(precision: map<int, Option<real>>, recall: map<int, Option<real>>, f1: map<int, Option<real>>)

  function ScoresOf(t: Table): Scores
    requires |t.actual| == |t.predicted| == |t.agreed|
  {
    Scores(map c | 0 <= c < |t.actual| :: Ratio(t.agreed[c], t.predicted[c]),
           map c | 0 <= c < |t.actual| :: Ratio(t.agreed[c], t.actual[c]),
           map c | 0 <= c < |t.actual| :: F1(Ratio(t.agreed[c], t.predicted[c]), Ratio(t.agreed[c], t.actual[c])))
  }

  /** What `evaluate` returns for the score rows and the true labels `y`. */
  function Evaluation(scores: seq<seq<real>>, width: nat, y: seq<nat>): Result<Scores>
  {
    match Predictions(scores, width, ArgMax)
    case Fail(e) => Fail(e)
    case Ok(pred) => if |pred| < |y| then Fail(IndexError) else Ok(ScoresOf(TableOf(y, pred)))
  }

  /** `evaluate`: predict, count, then one precision, recall and F1 per column of the table. */
  method Evaluate(scores: seq<seq<real>>, width: nat, y: seq<nat>) returns (r: Result<Scores>)
    requires Rectangular(scores, width)
    ensures r == Evaluation(scores, width, y)
  {
    var pred := Predict(scores, width);
    if pred.Fail? {
      return Fail(pred.error);
    }
    var tally := Tally(pred.value, y);
    if tally.Fail? {
      return Fail(tally.error);
    }
    var s := ScoreTable(tally.value);
    r := Ok(s);
  }

  /** The closing loop of `evaluate`: a precision, a recall and an F1 for every column. */
  method ScoreTable(t: Table) returns (s: Scores)
    requires |t.actual| == |t.predicted| == |t.agreed|
    ensures s == ScoresOf(t)
  {
    var precision, recall, f1 := map[], map[], map[];
    for c := 0 to |t.actual|
      invariant precision == map k | 0 <= k < c :: Ratio(t.agreed[k], t.predicted[k])
      invariant recall == map k | 0 <= k < c :: Ratio(t.agreed[k], t.actual[k])
      invariant f1 == map k | 0 <= k < c :: F1(Ratio(t.agreed[k], t.predicted[k]), Ratio(t.agreed[k], t.actual[k]))
    {
      precision := precision[c := Ratio(t.agreed[c], t.predicted[c])];
      recall := recall[c := Ratio(t.agreed[c], t.actual[c])];
      f1 := f1[c := F1(precision[c], recall[c])];
    }
    s := Scores(precision, recall, f1);
  }

  lemma LeQuotient(x: real, a: real, b: real)
    requires b > 0.0 && x * b <= a
    ensures x <= a / b
  {
  }

  lemma QuotientLe(x: real, a: real, b: real)
    requires b > 0.0 && a <= x * b
    ensures a / b <= x
  {
  }

  function HarmonicMean(p: real, r: real): real
    requires p + r != 0.0
  {
    2.0 * p * r / (p + r)
  }

  lemma HarmonicMeanOrdered(p: real, r: real)
    requires 0.0 <= p <= r && 0.0 < r
    ensures p <= HarmonicMean(p, r) <= r
  {
    assert p * p <= p * r && p * r <= r * r;
    assert p * (p + r) == p * p + p * r && r * (p + r) == r * p + r * r && r * p == p * r;
    assert 2.0 * p * r == p * r + p * r;
    assert HarmonicMean(p, r) == 2.0 * p * r / (p + r);
    LeQuotient(p, 2.0 * p * r, p + r);
    QuotientLe(r, 2.0 * p * r, p + r);
  }

  lemma HarmonicMeanSymmetric(p: real, r: real)
    requires p + r != 0.0
    ensures HarmonicMean(p, r) == HarmonicMean(r, p)
  {
    assert 2.0 * p * r == 2.0 * r * p && p + r == r + p;
  }

  /** The harmonic mean of two non-negative reals lies between them. */
  lemma HarmonicMeanBetween(p: real, r: real)
    requires 0.0 <= p && 0.0 <= r && 0.0 < p + r
    ensures (p <= HarmonicMean(p, r) <= r) || (r <= HarmonicMean(p, r) <= p)
  {
    if p <= r {
      HarmonicMeanOrdered(p, r);
    } else {
      HarmonicMeanOrdered(r, p);
      HarmonicMeanSymmetric(p, r);
    }
  }

  /** A ratio of a count to a larger one is missing only for a zero divisor and lies in [0, 1]. */
  lemma RatioSpec(a: nat, b: nat)
    requires a <= b
    ensures Ratio(a, b).None? <==> b == 0
    ensures Ratio(a, b).Some? ==> 0.0 <= Ratio(a, b).value <= 1.0
  {
    if b > 0 {
      QuotientLe(1.0, a as real, b as real);
      LeQuotient(0.0, a as real, b as real);
    }
  }

  /** F1 lies between the precision and the recall it combines. */
  lemma F1Between(p: Option<real>, r: Option<real>)
    requires p.Some? ==> p.value >= 0.0
    requires r.Some? ==> r.value >= 0.0
    ensures F1(p, r).Some? ==> p.Some? && r.Some?
    ensures F1(p, r).Some? ==>
              (p.value <= F1(p, r).value <= r.value) || (r.value <= F1(p, r).value <= p.value)
  {
    if F1(p, r).Some? {
      HarmonicMeanBetween(p.value, r.value);
    }
  }

  /**
   * Every class of the table gets a precision and a recall in [0, 1],
   * missing exactly when no document was predicted, respectively labelled,
   * with that class; its F1 lies between them.
   */
  lemma ScoresSpec(y: seq<nat>, pred: seq<nat>, c: int)
    requires |y| <= |pred| && 0 <= c < TableWidth(y, pred)
    ensures var s := ScoresOf(TableOf(y, pred));
      && c in s.precision && c in s.recall && c in s.f1
      && (s.precision[c].None? <==> c !in pred[..|y|])
      && (s.recall[c].None? <==> c !in y)
      && (s.precision[c].Some? ==> 0.0 <= s.precision[c].value <= 1.0)
      && (s.recall[c].Some? ==> 0.0 <= s.recall[c].value <= 1.0)
      && (s.f1[c].Some? ==> (s.precision[c].value <= s.f1[c].value <= s.recall[c].value) ||
                            (s.recall[c].value <= s.f1[c].value <= s.precision[c].value))
  {
    var t := TableOf(y, pred);
    AgreementsBound(c, y, pred);
    RatioSpec(t.agreed[c], t.predicted[c]);
    RatioSpec(t.agreed[c], t.actual[c]);
    F1Between(Ratio(t.agreed[c], t.predicted[c]), Ratio(t.agreed[c], t.actual[c]));
  }

  /** Predictions [0, 1, 0] against true labels [0, 1, 1] fill a two-column table. */
  lemma TableExample()
    ensures TableOf([0, 1, 1], [0, 1, 0]) == Table([1, 2], [2, 1], [1, 1])
  {
    var y, pred := [0, 1, 1], [0, 1, 0];
    assert y[..2] == [0, 1] && y[..2][..1] == [0] && [0][..0] == [];
    assert pred[..3] == pred && pred[..2] == [0, 1] && pred[..2][..1] == [0];
    assert TableWidth(y, pred) == 2;
    assert Count(0, y) == 1 && Count(1, y) == 2;
    assert Count(0, pred) == 2 && Count(1, pred) == 1;
    assert Agreements(0, y, pred) == 1 && Agreements(1, y, pred) == 1;
  }

  /** The table above gives precisions {0: 0.5, 1: 1.0}, recalls {0: 1.0, 1: 0.5} and F1 2/3 for both. */
  lemma ScoresExample()
    ensures ScoresOf(Table([1, 2], [2, 1], [1, 1])) ==
            Scores(map[0 := Some(0.5), 1 := Some(1.0)], map[0 := Some(1.0), 1 := Some(0.5)],
                   map[0 := Some(2.0 / 3.0), 1 := Some(2.0 / 3.0)])
  {
    var s := ScoresOf(Table([1, 2], [2, 1], [1, 1]));
    assert s.precision.Keys == s.recall.Keys == s.f1.Keys == {0, 1};
    assert Ratio(1, 2) == Some(0.5) && Ratio(1, 1) == Some(1.0);
    TwoKeys(s.precision, Some(0.5), Some(1.0));
    TwoKeys(s.recall, Some(1.0), Some(0.5));
    assert HarmonicMean(0.5, 1.0) == 2.0 / 3.0 && HarmonicMean(1.0, 0.5) == 2.0 / 3.0;
    TwoKeys(s.f1, Some(2.0 / 3.0), Some(2.0 / 3.0));
  }

  lemma TwoKeys<V>(m: map<int, V>, a: V, b: V)
    requires m.Keys == {0, 1} && m[0] == a && m[1] == b
    ensures m == map[0 := a, 1 := b]
  {
  }
}
