/**
 * The SPARQL-to-SQL translator of sheet 12. A query
 * `SELECT ?a ?b WHERE { s p o . s p o ... } LIMIT n` over a single
 * table `wikidata(subject, predicate, object)` becomes one self-join:
 * triple i is table alias `t<i>`, its predicate is matched as a string,
 * and every later occurrence of a variable is joined to the column of its
 * first occurrence.
 */
module Sparql {
  import opened Seqs
  import opened Outcomes
  import opened Strings

  /** A triple pattern of the WHERE clause. */
  datatype Triple = Triple(subj: string, pred: string, obj: string)

  /** A parsed query: the selected variables, the triple patterns and the text after LIMIT. */
  datatype Query = Query(variables: seq<string>, triples: seq<Triple>, limit: Option<string>)

  /** A variable is a term starting with `?`. */
  predicate IsVar(term: string) { |term| > 0 && term[0] == '?' }

  // ---------------------------------------------------------------------
  // Parsing
  // ---------------------------------------------------------------------

  /** The maximal non-whitespace prefix of `s` (a greedy `[^\s]+`, possibly empty). */
  function Token(s: string): string
  {
    s[..Leading(s, NonSpace)]
  }

  /** What follows the token. */
  function AfterToken(s: string): string
  {
    s[Leading(s, NonSpace)..]
  }

  /** `\s+`: what follows a non-empty run of leading whitespace, or None. */
  function Gap(s: string): Option<string>
  {
    var n := Leading(s, IsSpace);
    if n == 0 then None else Some(s[n..])
  }

  /**
   * `re.match('\s?(\?[^\s]+|[^\s]+)\s+([^\s]+)\s+(\?[^\s]+|[^\s]+)', chunk)`
   * and the three stripped groups. Both alternatives of a term match a
   * maximal run of non-whitespace, so the match is: at most one leading
   * whitespace character, then three such runs separated by whitespace;
   * anything may follow the third.
   */
  function MatchTriple(chunk: string): Option<Triple>
  {
    MatchTerms(if chunk != [] && IsSpace(chunk[0]) then chunk[1..] else chunk)
  }

  /** The three terms after the optional leading whitespace character. */
  function MatchTerms(r0: string): Option<Triple>
  {
    var s := Token(r0);
    if s == [] then None
    else match Gap(AfterToken(r0))
      case None => None
      case Some(r1) =>
        var p := Token(r1);
        if p == [] then None
        else match Gap(AfterToken(r1))
          case None => None
          case Some(r2) =>
            var o := Token(r2);
            if o == [] then None else Some(Triple(s, p, o))
  }

  /** The triples of the `.`-separated chunks; a chunk that does not match is an AttributeError on `None.group`. */
  function ParseTriples(chunks: seq<string>): Result<seq<Triple>>
  {
    if chunks == [] then Ok([])
    else match ParseTriples(chunks[..|chunks| - 1])
      case Fail(e) => Fail(e)
      case Ok(ts) =>
        match MatchTriple(Last(chunks))
        case None => Fail(AttributeError)
        case Some(t) => Ok(ts + [t])
  }

  /** Where the keywords are found: in the lower-cased query, at the same indices. */
  function SelectStart(low: string): int { Find(low, "select ", 0) + 7 }
  function SelectEnd(low: string): int { Find(low, " where", SelectStart(low)) }
  function WhereStart(low: string): int { Find(low, "{", SelectEnd(low)) + 1 }
  function WhereEnd(low: string): int { RFind(low, "}", WhereStart(low)) }
  function LimitStart(low: string): int { Find(low, " limit ", WhereEnd(low)) }

  /** The text of the WHERE block, between `{` and the last `}`. */
  function WhereText(sparql: string): string
  {
    var low := LowerStr(sparql);
    Slice(sparql, WhereStart(low), WhereEnd(low))
  }

  /** The whitespace-separated variables between SELECT and WHERE. */
  function Variables(sparql: string): seq<string>
  {
    var low := LowerStr(sparql);
    SplitWhitespace(Slice(sparql, SelectStart(low), SelectEnd(low)))
  }

  /** The stripped rest of the query after ` LIMIT `, if that occurs past index 0 after the WHERE block. */
  function Limit(sparql: string): Option<string>
  {
    var limitStart := LimitStart(LowerStr(sparql));
    if limitStart > 0 then Some(Strip(Slice(sparql, limitStart + 7, |sparql|))) else None
  }

  /** The selected variables, the triples and the optional LIMIT text of a query. */
  function Parse(sparql: string): Result<Query>
  {
    match ParseTriples(Split(WhereText(sparql), '.'))
    case Fail(e) => Fail(e)
    case Ok(ts) => Ok(Query(Variables(sparql), ts, Limit(sparql)))
  }

  // ---------------------------------------------------------------------
  // Translation
  // ---------------------------------------------------------------------

  /** `t<i>.<field>`. */
  function Column(i: nat, field: string): string
  {
    "t" + NatToString(i) + "." + field
  }

  /** Every variable recorded in `var_occ` has at least one column. */
  predicate Recorded(occ: map<string, seq<string>>)
  {
    forall v :: v in occ ==> occ[v] != []
  }

  /** `var_occ[v] += [col]`, or `var_occ[v] = [col]` for a new variable. */
  function Record(occ: map<string, seq<string>>, v: string, col: string): map<string, seq<string>>
  {
    occ[v := if v in occ then occ[v] + [col] else [col]]
  }

  /** `var_occ` after triple i: subject, then object, both only when the subject is a variable. */
  function StepOcc(occ: map<string, seq<string>>, t: Triple, i: nat): map<string, seq<string>>
  {
    if !IsVar(t.subj) then occ
    else
      var occ1 := Record(occ, t.subj, Column(i, "subject"));
      if IsVar(t.obj) then Record(occ1, t.obj, Column(i, "object")) else occ1
  }

  /** `var_occ` after all of `ts`: every variable's columns, in order. */
  function VarOcc(ts: seq<Triple>): (occ: map<string, seq<string>>)
    ensures Recorded(occ)
  {
    if ts == [] then map[] else StepOcc(VarOcc(ts[..|ts| - 1]), Last(ts), |ts| - 1)
  }

  function PredicateCond(t: Triple, i: nat): string
  {
    Column(i, "predicate") + "=\"" + t.pred + "\""
  }

  /** The conditions triple i adds to WHERE, given `var_occ` before it. */
  function TripleConds(occ: map<string, seq<string>>, t: Triple, i: nat): (conds: seq<string>)
    requires Recorded(occ)
    ensures |conds| >= 1
  {
    [PredicateCond(t, i)] +
    if !IsVar(t.subj) then []
    else
      var subjConds := if t.subj in occ then [Column(i, "subject") + "=" + occ[t.subj][0]] else [];
      var occ1 := Record(occ, t.subj, Column(i, "subject"));
      subjConds +
      if IsVar(t.obj) then
        (if t.obj in occ1 then [Column(i, "object") + "=" + occ1[t.obj][0]] else [])
      else [Column(i, "object") + "=\"" + t.obj + "\""]
  }

  /** All WHERE conditions, triple by triple. */
  function Conditions(ts: seq<Triple>): (conds: seq<string>)
    ensures |conds| >= |ts|
  {
    if ts == [] then []
    else Conditions(ts[..|ts| - 1]) + TripleConds(VarOcc(ts[..|ts| - 1]), Last(ts), |ts| - 1)
  }

  function FromItem(i: nat): string
  {
    "wikidata as t" + NatToString(i)
  }

  function FromItems(n: nat): seq<string>
  {
    seq(n, i requires 0 <= i => FromItem(i))
  }

  /** The first-occurrence column of each selected variable. */
  function SelectColumns(variables: seq<string>, occ: map<string, seq<string>>): Result<seq<string>>
    requires Recorded(occ)
  {
    if variables == [] then Fail(IndexError)
    else if exists k :: 0 <= k < |variables| && variables[k] !in occ then Fail(KeyError)
    else Ok(seq(|variables|, k requires 0 <= k < |variables| => occ[variables[k]][0]))
  }

  function SelectClause(cols: seq<string>): string { "SELECT " + JoinWith(cols, ", ") }
  function FromClause(n: nat): string { " FROM " + JoinWith(FromItems(n), ", ") }
  function WhereClause(ts: seq<Triple>): string { " WHERE " + JoinWith(Conditions(ts), " AND ") }

  function LimitClause(limit: Option<string>): string
  {
    match limit
    case None => ""
    case Some(l) => " LIMIT " + l
  }

  /** The SQL for a parsed query. */
  function Sql(q: Query): Result<string>
  {
    match SelectColumns(q.variables, VarOcc(q.triples))
    case Fail(e) => Fail(e)
    case Ok(cols) => Ok(SelectClause(cols) + FromClause(|q.triples|) + WhereClause(q.triples) + LimitClause(q.limit) + ";")
  }

  /** What `sparql_to_sql` returns or raises. */
  function SqlOf(sparql: string): Result<string>
  {
    match Parse(sparql)
    case Fail(e) => Fail(e)
    case Ok(q) => Sql(q)
  }

  // ---------------------------------------------------------------------
  // The translator
  // ---------------------------------------------------------------------

  /** `sparql_to_sql`: parse, then build FROM and WHERE triple by triple, then SELECT. */
  method SparqlToSql(sparql: string) returns (r: Result<string>)
    ensures r == SqlOf(sparql)
  {
    var q := ParseQuery(sparql);
    if q.Fail? {
      return Fail(q.error);
    }
    var from, where, varOcc := TranslateTriples(q.value.triples);
    var select := SelectList(q.value.variables, varOcc);
    if select.Fail? {
      return Fail(select.error);
    }
    var limitText := "";
    if q.value.limit.Some? {
      limitText := " LIMIT " + q.value.limit.value;
    }
    r := Ok(select.value + from + where + limitText + ";");
  }

  /** The parsing half of `sparql_to_sql`: keyword positions, variables, triples and LIMIT. */
  method ParseQuery(sparql: string) returns (r: Result<Query>)
    ensures r == Parse(sparql)
  {
    var variables := Variables(sparql);
    var triples := ParseTripleTexts(Split(WhereText(sparql), '.'));
    if triples.Fail? {
      return Fail(triples.error);
    }
    r := Ok(Query(variables, triples.value, Limit(sparql)));
  }

  /** The loop matching each `.`-separated chunk against the triple pattern. */
  method ParseTripleTexts(tripleTexts: seq<string>) returns (r: Result<seq<Triple>>)
    ensures r == ParseTriples(tripleTexts)
  {
    var triples: seq<Triple> := [];
    for k := 0 to |tripleTexts|
      invariant ParseTriples(tripleTexts[..k]) == Ok(triples)
    {
      assert tripleTexts[..k + 1][..k] == tripleTexts[..k];
      var m := MatchTriple(tripleTexts[k]);
      if m.None? {
        ParseTriplesFail(tripleTexts, k + 1);
        return Fail(AttributeError);
      }
      triples := triples + [m.value];
    }
    assert tripleTexts[..|tripleTexts|] == tripleTexts;
    r := Ok(triples);
  }

  /** The loop over the triples: FROM, WHERE and `var_occ`. */
  method TranslateTriples(triples: seq<Triple>) returns (from: string, where: string, varOcc: map<string, seq<string>>)
    ensures from == FromClause(|triples|)
    ensures where == WhereClause(triples)
    ensures varOcc == VarOcc(triples)
  {
    from, where := " FROM ", " WHERE ";
    varOcc := map[];
    for i := 0 to |triples|
      invariant from == FromClause(i)
      invariant where == WhereClause(triples[..i])
      invariant varOcc == VarOcc(triples[..i])
    {
      if i != 0 {
        from := from + ", ";
        where := where + " AND ";
      }
      from := from + ("wikidata as t" + NatToString(i));
      FromStep(i);
      WhereStep(triples, i);
      where, varOcc := AddTriple(triples[i], i, where, varOcc);
    }
    assert triples[..|triples|] == triples;
  }

  /** The SELECT clause: the first column of each selected variable. */
  method SelectList(variables: seq<string>, varOcc: map<string, seq<string>>) returns (r: Result<string>)
    requires Recorded(varOcc)
    ensures r == match SelectColumns(variables, varOcc)
                 case Fail(e) => Fail(e)
                 case Ok(cols) => Ok(SelectClause(cols))
  {
    if |variables| == 0 {
      return Fail(IndexError);
    }
    if variables[0] !in varOcc {
      return Fail(KeyError);
    }
    var select := "SELECT " + varOcc[variables[0]][0];
    ghost var cols := [varOcc[variables[0]][0]];
    for k := 1 to |variables|
      invariant forall j :: 0 <= j < k ==> variables[j] in varOcc
      invariant cols == seq(k, j requires 0 <= j < k => varOcc[variables[j]][0])
      invariant select == SelectClause(cols)
    {
      if variables[k] !in varOcc {
        return Fail(KeyError);
      }
      JoinWithSnoc(cols, varOcc[variables[k]][0], ", ");
      select := select + ", " + varOcc[variables[k]][0];
      cols := cols + [varOcc[variables[k]][0]];
    }
    assert !exists k :: 0 <= k < |variables| && variables[k] !in varOcc;
    r := Ok(select);
  }

  /** The body of the translation loop for triple i: its conditions and its `var_occ` updates. */
  method AddTriple(t: Triple, i: nat, where: string, occ: map<string, seq<string>>)
    returns (where': string, occ': map<string, seq<string>>)
    requires Recorded(occ)
    ensures where' == where + JoinWith(TripleConds(occ, t, i), " AND ")
    ensures occ' == StepOcc(occ, t, i)
  {
    where' := where + PredicateCond(t, i);
    occ' := occ;
    ghost var conds := [PredicateCond(t, i)];
    if IsVar(t.subj) {
      where', occ', conds := AddSubject(t, i, where, where', occ', conds);
      where', occ', conds := AddObject(t, i, where, where', occ', conds);
    }
    assert conds == TripleConds(occ, t, i);
  }

  /** The subject half of the loop body, reached only for a variable subject. */
  method AddSubject(t: Triple, i: nat, ghost where: string, where': string, occ: map<string, seq<string>>, ghost conds: seq<string>)
    returns (where'': string, occ': map<string, seq<string>>, ghost conds': seq<string>)
    requires conds != [] && where' == where + JoinWith(conds, " AND ")
    requires Recorded(occ)
    ensures where'' == where + JoinWith(conds', " AND ")
    ensures conds' == conds + if t.subj in occ then [Column(i, "subject") + "=" + occ[t.subj][0]] else []
    ensures occ' == Record(occ, t.subj, Column(i, "subject"))
  {
    where'', occ', conds' := where', occ, conds;
    if t.subj in occ' {
      occ' := occ'[t.subj := occ'[t.subj] + [Column(i, "subject")]];
      AppendCond(where, conds, Column(i, "subject") + "=" + occ[t.subj][0]);
      where'' := where'' + " AND " + (Column(i, "subject") + "=" + occ'[t.subj][0]);
      conds' := conds + [Column(i, "subject") + "=" + occ[t.subj][0]];
    } else {
      occ' := occ'[t.subj := [Column(i, "subject")]];
    }
  }

  /** The object half of the loop body, reached only for a variable subject. */
  method AddObject(t: Triple, i: nat, ghost where: string, where': string, occ: map<string, seq<string>>, ghost conds: seq<string>)
    returns (where'': string, occ': map<string, seq<string>>, ghost conds': seq<string>)
    requires conds != [] && where' == where + JoinWith(conds, " AND ")
    requires Recorded(occ) && t.subj in occ
    ensures where'' == where + JoinWith(conds', " AND ")
    ensures conds' == conds + if IsVar(t.obj) then
                                (if t.obj in occ then [Column(i, "object") + "=" + occ[t.obj][0]] else [])
                              else [Column(i, "object") + "=\"" + t.obj + "\""]
    ensures occ' == if IsVar(t.obj) then Record(occ, t.obj, Column(i, "object")) else occ
  {
    where'', occ', conds' := where', occ, conds;
    if IsVar(t.obj) {
      if t.obj in occ' {
        occ' := occ'[t.obj := occ'[t.obj] + [Column(i, "object")]];
        AppendCond(where, conds, Column(i, "object") + "=" + occ[t.obj][0]);
        where'' := where'' + " AND " + (Column(i, "object") + "=" + occ'[t.obj][0]);
        conds' := conds + [Column(i, "object") + "=" + occ[t.obj][0]];
      } else {
        occ' := occ'[t.obj := [Column(i, "object")]];
      }
    } else {
      AppendCond(where, conds, Column(i, "object") + "=\"" + t.obj + "\"");
      where'' := where'' + " AND " + (Column(i, "object") + "=\"" + t.obj + "\"");
      conds' := conds + [Column(i, "object") + "=\"" + t.obj + "\""];
    }
  }

  lemma JoinWithSnoc(cs: seq<string>, c: string, sep: string)
    requires cs != []
    ensures JoinWith(cs + [c], sep) == JoinWith(cs, sep) + sep + c
  {
    assert (cs + [c])[..|cs|] == cs;
  }

  lemma AppendCond(w: string, cs: seq<string>, c: string)
    requires cs != []
    ensures w + JoinWith(cs, " AND ") + " AND " + c == w + JoinWith(cs + [c], " AND ")
  {
    JoinWithSnoc(cs, c, " AND ");
  }

  lemma {:induction false} ParseTriplesFail(chunks: seq<string>, k: nat)
    requires k <= |chunks| && ParseTriples(chunks[..k]).Fail?
    ensures ParseTriples(chunks) == Fail(AttributeError)
    decreases |chunks| - k
  {
    if k < |chunks| {
      assert chunks[..k + 1][..k] == chunks[..k];
      ParseTriplesFail(chunks, k + 1);
    } else {
      assert chunks[..k] == chunks;
      ParseTriplesFailIsAttribute(chunks);
    }
  }

  lemma {:induction false} ParseTriplesFailIsAttribute(chunks: seq<string>)
    ensures ParseTriples(chunks).Fail? ==> ParseTriples(chunks) == Fail(AttributeError)
  {
    if chunks != [] {
      ParseTriplesFailIsAttribute(chunks[..|chunks| - 1]);
    }
  }

  lemma {:induction false} JoinWithAppend(a: seq<string>, b: seq<string>, sep: string)
    requires a != [] && b != []
    ensures JoinWith(a + b, sep) == JoinWith(a, sep) + sep + JoinWith(b, sep)
    decreases |b|
  {
    if |b| == 1 {
      assert (a + b)[..|a|] == a;
    } else {
      var b' := b[..|b| - 1];
      JoinWithAppend(a, b', sep);
      assert (a + b)[..|a + b| - 1] == a + b';
      assert JoinWith(a, sep) + sep + JoinWith(b', sep) + sep + Last(b) == JoinWith(a, sep) + sep + (JoinWith(b', sep) + sep + Last(b));
    }
  }

  lemma FromStep(i: nat)
    ensures FromClause(i + 1) == (if i == 0 then FromClause(i) else FromClause(i) + ", ") + FromItem(i)
  {
    var items := FromItems(i + 1);
    assert items == FromItems(i) + [FromItem(i)];
    if i > 0 {
      JoinWithSnoc(FromItems(i), FromItem(i), ", ");
    } else {
      assert items == [FromItem(0)];
    }
  }

  lemma WhereStep(ts: seq<Triple>, i: nat)
    requires i < |ts|
    ensures VarOcc(ts[..i + 1]) == StepOcc(VarOcc(ts[..i]), ts[i], i)
    ensures WhereClause(ts[..i + 1]) ==
            (if i == 0 then WhereClause(ts[..i]) else WhereClause(ts[..i]) + " AND ") + JoinWith(TripleConds(VarOcc(ts[..i]), ts[i], i), " AND ")
  {
    assert ts[..i + 1][..i] == ts[..i];
    var c, tc := Conditions(ts[..i]), TripleConds(VarOcc(ts[..i]), ts[i], i);
    assert Conditions(ts[..i + 1]) == c + tc;
    if i > 0 {
      JoinWithAppend(c, tc, " AND ");
    } else {
      assert c + tc == tc;
    }
  }

  // ---------------------------------------------------------------------
  // Properties
  // ---------------------------------------------------------------------

  /** The columns at which triple i mentions variable `v`; the object counts only under a variable subject. */
  function TermOccurrences(t: Triple, i: nat, v: string): seq<string>
  {
    (if IsVar(t.subj) && t.subj == v then [Column(i, "subject")] else []) +
    (if IsVar(t.subj) && IsVar(t.obj) && t.obj == v then [Column(i, "object")] else [])
  }

  /** Every column at which `v` occurs in `ts`, in query order. */
  function Occurrences(ts: seq<Triple>, v: string): seq<string>
  {
    if ts == [] then [] else Occurrences(ts[..|ts| - 1], v) + TermOccurrences(Last(ts), |ts| - 1, v)
  }

  /** The columns recorded for `v`, none if it is not a key. */
  function Columns(occ: map<string, seq<string>>, v: string): seq<string>
  {
    if v in occ then occ[v] else []
  }

  lemma StepOccColumns(occ: map<string, seq<string>>, t: Triple, i: nat, v: string)
    requires Recorded(occ)
    ensures Columns(StepOcc(occ, t, i), v) == Columns(occ, v) + TermOccurrences(t, i, v)
    ensures v in StepOcc(occ, t, i) <==> Columns(StepOcc(occ, t, i), v) != []
  {
  }

  /**
   * `var_occ` records exactly the variables that occur, each with all the
   * columns it occurs at, in query order.
   */
  lemma {:induction false} VarOccSpec(ts: seq<Triple>, v: string)
    ensures v in VarOcc(ts) <==> Occurrences(ts, v) != []
    ensures v in VarOcc(ts) ==> VarOcc(ts)[v] == Occurrences(ts, v)
  {
    if ts != [] {
      var init := ts[..|ts| - 1];
      VarOccSpec(init, v);
      StepOccColumns(VarOcc(init), Last(ts), |ts| - 1, v);
    }
  }

  /**
   * What triple i contributes to WHERE: its predicate condition; for a
   * variable subject seen before, a join to that variable's first column;
   * under a variable subject, a join of a variable object to its first
   * column (possibly this triple's subject), or the constant object. A
   * constant subject contributes its predicate condition only.
   */
  lemma TripleCondsSpec(ts: seq<Triple>, i: nat)
    requires i < |ts|
    ensures var t, tc := ts[i], TripleConds(VarOcc(ts[..i]), ts[i], i);
      && tc[0] == PredicateCond(t, i)
      && (!IsVar(t.subj) ==> tc == [PredicateCond(t, i)])
      && (IsVar(t.subj) && Occurrences(ts[..i], t.subj) != [] ==>
            |tc| >= 2 && tc[1] == Column(i, "subject") + "=" + Occurrences(ts[..i], t.subj)[0])
      && (IsVar(t.subj) && Occurrences(ts[..i], t.subj) == [] ==> |tc| <= 2)
      && (IsVar(t.subj) && !IsVar(t.obj) ==> Last(tc) == Column(i, "object") + "=\"" + t.obj + "\"")
      && (IsVar(t.subj) && IsVar(t.obj) && Occurrences(ts[..i], t.obj) != [] ==>
            Last(tc) == Column(i, "object") + "=" + Occurrences(ts[..i], t.obj)[0])
      && (IsVar(t.subj) && t.obj == t.subj && Occurrences(ts[..i], t.obj) == [] ==>
            Last(tc) == Column(i, "object") + "=" + Column(i, "subject"))
      && (IsVar(t.subj) && IsVar(t.obj) && t.obj != t.subj && Occurrences(ts[..i], t.obj) == [] ==>
            |tc| == if Occurrences(ts[..i], t.subj) != [] then 2 else 1)
  {
    var t := ts[i];
    VarOccSpec(ts[..i], t.subj);
    VarOccSpec(ts[..i], t.obj);
  }

  /** Every triple's predicate condition is among the WHERE conditions. */
  lemma {:induction false} PredicateCondsPresent(ts: seq<Triple>, i: nat)
    requires i < |ts|
    ensures PredicateCond(ts[i], i) in Conditions(ts)
  {
    var init := ts[..|ts| - 1];
    if i < |init| {
      PredicateCondsPresent(init, i);
    } else {
      assert TripleConds(VarOcc(init), Last(ts), i)[0] == PredicateCond(ts[i], i);
    }
  }

  /**
   * SELECT: no variable is an IndexError, a variable that never occurs a
   * KeyError; otherwise each variable's column is its first occurrence.
   */
  lemma SelectColumnsSpec(variables: seq<string>, ts: seq<Triple>)
    ensures variables == [] ==> SelectColumns(variables, VarOcc(ts)) == Fail(IndexError)
    ensures variables != [] && (exists k :: 0 <= k < |variables| && Occurrences(ts, variables[k]) == []) ==>
              SelectColumns(variables, VarOcc(ts)) == Fail(KeyError)
    ensures (forall k :: 0 <= k < |variables| ==> Occurrences(ts, variables[k]) != []) && variables != [] ==>
              SelectColumns(variables, VarOcc(ts)).Ok? &&
              |SelectColumns(variables, VarOcc(ts)).value| == |variables| &&
              forall k :: 0 <= k < |variables| ==>
                SelectColumns(variables, VarOcc(ts)).value[k] == Occurrences(ts, variables[k])[0]
  {
    forall k | 0 <= k < |variables| {
      VarOccSpec(ts, variables[k]);
    }
  }

  /** A chunk that matches yields three non-empty terms without whitespace. */
  lemma MatchTripleSound(chunk: string)
    requires MatchTriple(chunk).Some?
    ensures var t := MatchTriple(chunk).value;
      && t.subj != [] && t.pred != [] && t.obj != []
      && (forall k :: 0 <= k < |t.subj| ==> !IsSpace(t.subj[k]))
      && (forall k :: 0 <= k < |t.pred| ==> !IsSpace(t.pred[k]))
      && (forall k :: 0 <= k < |t.obj| ==> !IsSpace(t.obj[k]))
  {
  }

  predicate IsTerm(w: string) { w != [] && forall k :: 0 <= k < |w| ==> !IsSpace(w[k]) }
  predicate AllSpace(w: string) { forall k :: 0 <= k < |w| ==> IsSpace(w[k]) }

  lemma TokenOf(w: string, rest: string)
    requires IsTerm(w) && (rest == [] || IsSpace(rest[0]))
    ensures Token(w + rest) == w && AfterToken(w + rest) == rest
  {
    LeadingPrefix(w, rest, NonSpace);
  }

  lemma GapOf(g: string, rest: string)
    requires g != [] && AllSpace(g) && (rest == [] || !IsSpace(rest[0]))
    ensures Gap(g + rest) == Some(rest)
  {
    LeadingPrefix(g, rest, IsSpace);
  }

  /** At most one leading whitespace character before a non-space is skipped. */
  lemma MatchTripleOf(lead: string, r0: string)
    requires |lead| <= 1 && AllSpace(lead)
    requires r0 == [] || !IsSpace(r0[0])
    ensures MatchTriple(lead + r0) == MatchTerms(r0)
  {
    if lead == [] {
      assert lead + r0 == r0;
    } else {
      assert (lead + r0)[1..] == r0;
    }
  }

  /**
   * Three terms separated by whitespace, and anything after whitespace,
   * match with those three terms.
   */
  lemma MatchTermsOf(s: string, g1: string, p: string, g2: string, o: string, rest: string)
    requires IsTerm(s) && IsTerm(p) && IsTerm(o)
    requires g1 != [] && AllSpace(g1) && g2 != [] && AllSpace(g2)
    requires rest == [] || IsSpace(rest[0])
    ensures MatchTerms(s + g1 + p + g2 + o + rest) == Some(Triple(s, p, o))
  {
    var r2 := o + rest;
    var r1 := p + (g2 + r2);
    Nest(s, g1, p, g2, o, rest);
    TokenOf(s, g1 + r1);
    GapOf(g1, r1);
    TokenOf(p, g2 + r2);
    GapOf(g2, r2);
    TokenOf(o, rest);
  }

  lemma Nest<T>(a: seq<T>, b: seq<T>, c: seq<T>, d: seq<T>, e: seq<T>, f: seq<T>)
    ensures a + b + c + d + e + f == a + (b + (c + (d + (e + f))))
  {
    AppendAssoc(a + b + c + d, e, f);
    AppendAssoc(a + b + c, d, e + f);
    AppendAssoc(a + b, c, d + (e + f));
    AppendAssoc(a, b, c + (d + (e + f)));
  }

  /** A chunk with two leading whitespace characters, or only whitespace, does not match. */
  lemma MatchTripleFails(chunk: string)
    requires (|chunk| >= 2 && IsSpace(chunk[0]) && IsSpace(chunk[1])) || AllSpace(chunk)
    ensures MatchTriple(chunk) == None
  {
  }

  /** A trailing `.` leaves an empty last chunk, so the query fails with an AttributeError. */
  lemma TrailingDotFails(whereText: string)
    ensures ParseTriples(Split(whereText + ".", '.')) == Fail(AttributeError)
  {
    SplitSeparatorEnd(whereText, '.');
    var chunks := Split(whereText, '.') + [[]];
    assert Last(chunks) == [] && chunks[..|chunks| - 1] == Split(whereText, '.');
    MatchTripleFails([]);
    ParseTriplesFailIsAttribute(chunks);
  }

  // ---------------------------------------------------------------------
  // The German-politicians example
  // ---------------------------------------------------------------------

  /** `find` returns an occurrence at or after the start when none lies between. */
  lemma FindAt(s: string, sub: string, start: nat, r: nat)
    requires start <= r && OccursAt(s, sub, r)
    requires forall k :: start <= k < r ==> !OccursAt(s, sub, k)
    ensures Find(s, sub, start) == r
  {
  }

  lemma NotAt(s: string, sub: string, k: nat, j: nat)
    requires j < |sub| && k + j < |s| && s[k + j] != sub[j]
    ensures !OccursAt(s, sub, k)
  {
    if k + |sub| <= |s| {
      assert s[k..k + |sub|][j] == s[k + j];
    }
  }

  /**
   * A query `SELECT <vars> WHERE {<body>}` whose variable text has no
   * `w` in either case: the variables are the words of that text, the
   * WHERE text is the whole body, and there is no LIMIT.
   */
  lemma QueryShape(sparql: string, vars: string, body: string)
    requires sparql == "SELECT " + vars + " WHERE {" + body + "}"
    requires forall k :: 0 <= k < |vars| ==> Lower(vars[k]) != 'w'
    ensures Variables(sparql) == SplitWhitespace(vars)
    ensures WhereText(sparql) == body
    ensures Limit(sparql) == None
  {
    var low := LowerStr(sparql);
    var n := |vars|;
    QueryLower(sparql, vars, body);
    WherePositions(low, LowerStr(vars), LowerStr(body));
    var head := "SELECT " + vars + " WHERE {";
    Halves(head + body, "}");
    Halves(head, body);
    assert Slice(sparql, 15 + n, |sparql| - 1) == body;
    Halves("SELECT " + vars, " WHERE {");
    Halves("SELECT ", vars);
    assert Slice(sparql, 7, 7 + n) == vars;
  }

  lemma Halves<T>(a: seq<T>, b: seq<T>)
    ensures (a + b)[..|a|] == a && (a + b)[|a|..] == b
  {
  }

  lemma QueryLower(sparql: string, vars: string, body: string)
    requires sparql == "SELECT " + vars + " WHERE {" + body + "}"
    ensures LowerStr(sparql) == "select " + LowerStr(vars) + " where {" + LowerStr(body) + "}"
  {
    LowerStrAppend("SELECT " + vars + " WHERE {" + body, "}");
    LowerStrAppend("SELECT " + vars + " WHERE {", body);
    LowerStrAppend("SELECT " + vars, " WHERE {");
    LowerStrAppend("SELECT ", vars);
    assert LowerStr("SELECT ") == "select ";
    assert LowerStr(" WHERE {") == " where {";
    assert LowerStr("}") == "}";
  }

  /** The keywords of a lower-cased query `select <lv> where {<rest>` whose variable text has no `w`. */
  lemma SelectPositions(low: string, lv: string, rest: string)
    requires low == "select " + lv + " where {" + rest
    requires forall k :: 0 <= k < |lv| ==> lv[k] != 'w'
    ensures SelectStart(low) == 7 && SelectEnd(low) == 7 + |lv| && WhereStart(low) == 15 + |lv|
  {
    var n := |lv|;
    assert low[..7] == "select ";
    FindAt(low, "select ", 0, 0);
    forall k | 7 <= k < 7 + n
      ensures !OccursAt(low, " where", k)
    {
      if k + 1 < 7 + n {
        assert low[k + 1] == lv[k + 1 - 7];
      } else {
        assert low[k + 1] == ' ';
      }
      NotAt(low, " where", k, 1);
    }
    assert low[7 + n..13 + n] == " where";
    FindAt(low, " where", 7, 7 + n);
    forall k | 7 + n <= k < 14 + n
      ensures !OccursAt(low, "{", k)
    {
      assert low[k] == " where {"[k - 7 - n];
      NotAt(low, "{", k, 0);
    }
    assert low[14 + n] == '{';
    FindAt(low, "{", 7 + n, 14 + n);
  }

  /** Without LIMIT, the WHERE block runs to the last character and no ` limit ` follows it. */
  lemma WherePositions(low: string, lv: string, lb: string)
    requires low == "select " + lv + " where {" + lb + "}"
    requires forall k :: 0 <= k < |lv| ==> lv[k] != 'w'
    ensures SelectStart(low) == 7 && SelectEnd(low) == 7 + |lv|
    ensures WhereStart(low) == 15 + |lv| && WhereEnd(low) == |low| - 1 && LimitStart(low) == -1
  {
    AppendAssoc("select " + lv + " where {", lb, "}");
    SelectPositions(low, lv, lb + "}");
    assert OccursAt(low, "}", |low| - 1);
  }

  /**
   * With ` limit <ll>` after the closing brace, and no `}` in `ll`: the
   * WHERE block ends at that brace and ` limit ` starts right after it.
   */
  lemma WhereLimitPositions(low: string, lv: string, lb: string, ll: string)
    requires low == "select " + lv + " where {" + lb + "} limit " + ll
    requires forall k :: 0 <= k < |lv| ==> lv[k] != 'w'
    requires forall k :: 0 <= k < |ll| ==> ll[k] != '}'
    ensures SelectStart(low) == 7 && SelectEnd(low) == 7 + |lv| && WhereStart(low) == 15 + |lv|
    ensures WhereEnd(low) == 15 + |lv| + |lb| && LimitStart(low) == 16 + |lv| + |lb|
  {
    var e := 15 + |lv| + |lb|;
    AppendAssoc("select " + lv + " where {", lb, "} limit ");
    AppendAssoc("select " + lv + " where {", lb + "} limit ", ll);
    SelectPositions(low, lv, lb + "} limit " + ll);
    Halves("select " + lv + " where {" + lb, "} limit " + ll);
    AfterBrace(low, e, 15 + |lv|, ll);
  }

  /** From a `}` followed by ` limit <ll>` with no `}` in `ll`: that brace is the last one, and ` limit ` follows it. */
  lemma AfterBrace(low: string, e: nat, st: nat, ll: string)
    requires st <= e <= |low| && low[e..] == "} limit " + ll
    requires forall k :: 0 <= k < |ll| ==> ll[k] != '}'
    ensures RFind(low, "}", st) == e && Find(low, " limit ", e) == e + 1
  {
    assert low[e..e + 1] == "}";
    forall k | e < k < |low|
      ensures !OccursAt(low, "}", k)
    {
      if k < e + 8 {
        assert low[k] == "} limit "[k - e];
      } else {
        assert low[k] == ll[k - e - 8];
      }
      NotAt(low, "}", k, 0);
    }
    assert SearchStart(st, |low|) == st;
    assert OccursAt(low, "}", e);
    assert low[e + 1..e + 8] == " limit ";
    NotAt(low, " limit ", e, 0);
    FindAt(low, " limit ", e, e + 1);
  }

  lemma LimitLower(sparql: string, vars: string, body: string, lim: string)
    requires sparql == "SELECT " + vars + " WHERE {" + body + "} LIMIT " + lim
    ensures LowerStr(sparql) == "select " + LowerStr(vars) + " where {" + LowerStr(body) + "} limit " + LowerStr(lim)
  {
    LowerStrAppend("SELECT " + vars + " WHERE {" + body + "} LIMIT ", lim);
    LowerStrAppend("SELECT " + vars + " WHERE {" + body, "} LIMIT ");
    LowerStrAppend("SELECT " + vars + " WHERE {", body);
    LowerStrAppend("SELECT " + vars, " WHERE {");
    LowerStrAppend("SELECT ", vars);
    assert LowerStr("SELECT ") == "select ";
    assert LowerStr(" WHERE {") == " where {";
    assert LowerStr("} LIMIT ") == "} limit ";
  }

  /**
   * A query `SELECT <vars> WHERE {<body>} LIMIT <lim>` whose variable text
   * has no `w` in either case and whose LIMIT text has no `}`: the
   * variables are the words of the variable text, the WHERE text is the
   * whole body, and the LIMIT is the stripped text after ` LIMIT `.
   */
  lemma LimitShape(sparql: string, vars: string, body: string, lim: string)
    requires sparql == "SELECT " + vars + " WHERE {" + body + "} LIMIT " + lim
    requires forall k :: 0 <= k < |vars| ==> Lower(vars[k]) != 'w'
    requires forall k :: 0 <= k < |lim| ==> lim[k] != '}'
    ensures Variables(sparql) == SplitWhitespace(vars)
    ensures WhereText(sparql) == body
    ensures Limit(sparql) == Some(Strip(lim))
  {
    var low := LowerStr(sparql);
    LimitLower(sparql, vars, body, lim);
    LowerNoBrace(lim);
    WhereLimitPositions(low, LowerStr(vars), LowerStr(body), LowerStr(lim));
    LimitSlices(sparql, vars, body, lim);
  }

  /** Lower-casing puts no `}` where there was none. */
  lemma LowerNoBrace(s: string)
    requires forall k :: 0 <= k < |s| ==> s[k] != '}'
    ensures forall k :: 0 <= k < |LowerStr(s)| ==> LowerStr(s)[k] != '}'
  {
    forall k | 0 <= k < |s|
      ensures LowerStr(s)[k] != '}'
    {
      assert LowerStr(s)[k] == Lower(s[k]);
      assert !IsAsciiLetter('}');
    }
  }

  lemma LimitSlices(sparql: string, vars: string, body: string, lim: string)
    requires sparql == "SELECT " + vars + " WHERE {" + body + "} LIMIT " + lim
    ensures Slice(sparql, 7, 7 + |vars|) == vars
    ensures Slice(sparql, 15 + |vars|, 15 + |vars| + |body|) == body
    ensures Slice(sparql, 23 + |vars| + |body|, |sparql|) == lim
  {
    var head := "SELECT " + vars + " WHERE {";
    Halves(head + body + "} LIMIT ", lim);
    Halves(head + body, "} LIMIT ");
    Halves(head, body);
    Halves("SELECT " + vars, " WHERE {");
    Halves("SELECT ", vars);
  }

  /** LIMIT only inserts ` LIMIT <l>` before the final `;`; the errors are those without it. */
  lemma SqlLimit(variables: seq<string>, ts: seq<Triple>, l: string)
    ensures Sql(Query(variables, ts, Some(l))).Fail? <==> Sql(Query(variables, ts, None)).Fail?
    ensures Sql(Query(variables, ts, None)).Fail? ==> Sql(Query(variables, ts, Some(l))) == Sql(Query(variables, ts, None))
    ensures Sql(Query(variables, ts, None)).Ok? ==>
      var w := Sql(Query(variables, ts, None)).value;
      |w| >= 1 && Last(w) == ';' && Sql(Query(variables, ts, Some(l))) == Ok(w[..|w| - 1] + " LIMIT " + l + ";")
  {
    match SelectColumns(variables, VarOcc(ts))
    case Fail(e) =>
    case Ok(cols) =>
      var x := SelectClause(cols) + FromClause(|ts|) + WhereClause(ts);
      assert x + "" + ";" == x + ";";
      assert (x + ";")[..|x|] == x;
      AppendAssoc(x, " LIMIT ", l);
  }

  /** The query of the German-politicians example, in the pieces the doctest writes it in. */
  function ExampleQuery(): string
  {
    "SELECT ?x ?y WHERE {"
    + "?x occupation politician . "
    + "?x country_of_citizenship Germany . "
    + "?x spouse ?y . "
    + "?x place_of_birth ?z . "
    + "?y place_of_birth ?z "
    + "}"
  }

  function ExampleTriples(): seq<Triple>
  {
    [Triple("?x", "occupation", "politician"), Triple("?x", "country_of_citizenship", "Germany"),
     Triple("?x", "spouse", "?y"), Triple("?x", "place_of_birth", "?z"), Triple("?y", "place_of_birth", "?z")]
  }

  /** A non-empty word of visible ASCII characters is a term. */
  lemma VisibleTerm(w: string)
    requires w != [] && forall k :: 0 <= k < |w| ==> '!' <= w[k] <= '~'
    ensures IsTerm(w)
  {
  }

  /** A chunk `<s> <p> <o> ` matches with its three terms. */
  lemma TermsOf(s: string, p: string, o: string)
    requires s != [] && forall k :: 0 <= k < |s| ==> '!' <= s[k] <= '~'
    requires p != [] && forall k :: 0 <= k < |p| ==> '!' <= p[k] <= '~'
    requires o != [] && forall k :: 0 <= k < |o| ==> '!' <= o[k] <= '~'
    ensures MatchTerms(s + " " + p + " " + o + " ") == Some(Triple(s, p, o))
  {
    VisibleTerm(s);
    VisibleTerm(p);
    VisibleTerm(o);
    MatchTermsOf(s, " ", p, " ", o, " ");
  }

  lemma ExampleText0()
    ensures "?x occupation politician " == "?x" + " " + "occupation" + " " + "politician" + " "
  {
    assert "?x occupation politician " == "?x occupation politician" + " ";
    assert "?x occupation politician" == "?x occupation" + " " + "politician";
    assert "?x occupation" == "?x" + " " + "occupation";
  }

  lemma ExampleTerms0(x: string, t: Triple)
    requires x == "?x occupation politician " && t == Triple("?x", "occupation", "politician")
    ensures MatchTerms(x) == Some(t)
  {
    ExampleText0();
    TermsOf("?x", "occupation", "politician");
  }

  lemma ExampleText1()
    ensures "?x country_of_citizenship Germany " == "?x" + " " + "country_of_citizenship" + " " + "Germany" + " "
  {
    assert "?x country_of_citizenship Germany " == "?x country_of_citizenship Germany" + " ";
    assert "?x country_of_citizenship Germany" == "?x country_of_citizenship" + " " + "Germany";
    assert "?x country_of_citizenship" == "?x" + " " + "country_of_citizenship";
  }

  lemma ExampleTerms1(x: string, t: Triple)
    requires x == "?x country_of_citizenship Germany " && t == Triple("?x", "country_of_citizenship", "Germany")
    ensures MatchTerms(x) == Some(t)
  {
    ExampleText1();
    TermsOf("?x", "country_of_citizenship", "Germany");
  }

  lemma ExampleText2()
    ensures "?x spouse ?y " == "?x" + " " + "spouse" + " " + "?y" + " "
  {
    assert "?x spouse ?y " == "?x spouse ?y" + " ";
    assert "?x spouse ?y" == "?x spouse" + " " + "?y";
    assert "?x spouse" == "?x" + " " + "spouse";
  }

  lemma ExampleTerms2(x: string, t: Triple)
    requires x == "?x spouse ?y " && t == Triple("?x", "spouse", "?y")
    ensures MatchTerms(x) == Some(t)
  {
    ExampleText2();
    TermsOf("?x", "spouse", "?y");
  }

  lemma ExampleText3()
    ensures "?x place_of_birth ?z " == "?x" + " " + "place_of_birth" + " " + "?z" + " "
  {
    assert "?x place_of_birth ?z " == "?x place_of_birth ?z" + " ";
    assert "?x place_of_birth ?z" == "?x place_of_birth" + " " + "?z";
    assert "?x place_of_birth" == "?x" + " " + "place_of_birth";
  }

  lemma ExampleTerms3(x: string, t: Triple)
    requires x == "?x place_of_birth ?z " && t == Triple("?x", "place_of_birth", "?z")
    ensures MatchTerms(x) == Some(t)
  {
    ExampleText3();
    TermsOf("?x", "place_of_birth", "?z");
  }

  lemma ExampleText4()
    ensures "?y place_of_birth ?z " == "?y" + " " + "place_of_birth" + " " + "?z" + " "
  {
    assert "?y place_of_birth ?z " == "?y place_of_birth ?z" + " ";
    assert "?y place_of_birth ?z" == "?y place_of_birth" + " " + "?z";
    assert "?y place_of_birth" == "?y" + " " + "place_of_birth";
  }

  lemma ExampleTerms4(x: string, t: Triple)
    requires x == "?y place_of_birth ?z " && t == Triple("?y", "place_of_birth", "?z")
    ensures MatchTerms(x) == Some(t)
  {
    ExampleText4();
    TermsOf("?y", "place_of_birth", "?z");
  }

  lemma JoinSnoc(parts: seq<string>, x: string, sep: char)
    requires |parts| >= 1
    ensures Join(parts + [x], sep) == Join(parts, sep) + [sep] + x
  {
    assert (parts + [x])[..|parts|] == parts;
  }

  /** A piece `<x> . ` after a text ending in `. ` extends it by one `.`-separated chunk ` <x> `. */
  lemma DotStep(j: string, x: string, e: string)
    requires e == ". "
    ensures (j + e) + (x + e) == (j + ['.'] + (" " + x)) + e
    ensures (j + e) + x == j + ['.'] + (" " + x)
  {
    assert e == ['.'] + " ";
    AppendAssoc(j, ['.'], " ");
    AppendAssoc(j + ['.'], " ", x);
    AppendAssoc(j + e, x, e);
    AppendAssoc(j + ['.'] + " " + x, [], e);
  }

  lemma ExamplePieces()
    ensures "?x occupation politician . " == "?x occupation politician " + ". "
    ensures "?x country_of_citizenship Germany . " == "?x country_of_citizenship Germany " + ". "
    ensures "?x spouse ?y . " == "?x spouse ?y " + ". "
    ensures "?x place_of_birth ?z . " == "?x place_of_birth ?z " + ". "
  {
  }

  lemma ExampleNoDots()
    ensures '.' !in "?x occupation politician "
    ensures '.' !in "?x country_of_citizenship Germany "
    ensures '.' !in "?x spouse ?y "
    ensures '.' !in "?x place_of_birth ?z "
    ensures '.' !in "?y place_of_birth ?z "
  {
    ExampleNoDotsFirst();
    ExampleNoDotsRest();
  }

  lemma ExampleNoDotsFirst()
    ensures '.' !in "?x occupation politician "
    ensures '.' !in "?x country_of_citizenship Germany "
  {
  }

  lemma ExampleNoDotsRest()
    ensures '.' !in "?x spouse ?y "
    ensures '.' !in "?x place_of_birth ?z "
    ensures '.' !in "?y place_of_birth ?z "
  {
  }

  lemma SpaceNoDot(x: string)
    requires '.' !in x
    ensures '.' !in " " + x
  {
  }

  /** The WHERE text of the example splits at `.` into its five triple texts. */
  lemma ExampleSplit()
    ensures Split("?x occupation politician . " + "?x country_of_citizenship Germany . " + "?x spouse ?y . "
                  + "?x place_of_birth ?z . " + "?y place_of_birth ?z ", '.')
         == ["?x occupation politician ", " " + "?x country_of_citizenship Germany ", " " + "?x spouse ?y ",
             " " + "?x place_of_birth ?z ", " " + "?y place_of_birth ?z "]
  {
    var x0, x1, x2, x3, x4 := "?x occupation politician ", "?x country_of_citizenship Germany ", "?x spouse ?y ",
                              "?x place_of_birth ?z ", "?y place_of_birth ?z ";
    var e := ". ";
    ExamplePieces();
    var c1 := [x0];
    var c2 := c1 + [" " + x1];
    var c3 := c2 + [" " + x2];
    var c4 := c3 + [" " + x3];
    var c5 := c4 + [" " + x4];
    JoinSnoc(c1, " " + x1, '.');
    JoinSnoc(c2, " " + x2, '.');
    JoinSnoc(c3, " " + x3, '.');
    JoinSnoc(c4, " " + x4, '.');
    DotStep(x0, x1, e);
    DotStep(Join(c2, '.'), x2, e);
    DotStep(Join(c3, '.'), x3, e);
    DotStep(Join(c4, '.'), x4, e);
    assert Join(c5, '.') == (x0 + e) + (x1 + e) + (x2 + e) + (x3 + e) + x4;
    ExampleNoDots();
    SpaceNoDot(x1);
    SpaceNoDot(x2);
    SpaceNoDot(x3);
    SpaceNoDot(x4);
    JoinSplit(c5, '.');
    assert c5 == [x0, " " + x1, " " + x2, " " + x3, " " + x4];
  }

  /** Two words of visible characters separated by one space are split into those two words. */
  lemma TwoWords(a: string, b: string)
    requires a != [] && forall k :: 0 <= k < |a| ==> '!' <= a[k] <= '~'
    requires b != [] && forall k :: 0 <= k < |b| ==> '!' <= b[k] <= '~'
    ensures SplitWhitespace(a + " " + b) == [a, b]
  {
    assert a + " " + b == a + [' '] + b;
    RunsSeparated(a, ' ', b, NonSpace);
    RunsWhole(a, NonSpace);
    RunsWhole(b, NonSpace);
  }

  lemma ExampleVariables()
    ensures SplitWhitespace("?x ?y") == ["?x", "?y"]
  {
    assert "?x ?y" == "?x" + " " + "?y";
    TwoWords("?x", "?y");
  }

  /** One more matching chunk adds its triple. */
  lemma ParseTriplesSnoc(chunks: seq<string>, c: string, ts: seq<Triple>, t: Triple)
    requires ParseTriples(chunks) == Ok(ts) && MatchTriple(c) == Some(t)
    ensures ParseTriples(chunks + [c]) == Ok(ts + [t])
  {
    assert (chunks + [c])[..|chunks|] == chunks;
  }

  /** A chunk of terms matches with or without one leading space. */
  lemma SpacedMatch(x: string, t: Triple)
    requires MatchTerms(x) == Some(t) && x != [] && !IsSpace(x[0])
    ensures MatchTriple(x) == Some(t) && MatchTriple(" " + x) == Some(t)
  {
    var y := " " + x;
    assert y[0] == ' ' && y[1..] == x;
  }

  /** Five chunks that each match parse into their five triples. */
  lemma FiveMatches(c0: string, c1: string, c2: string, c3: string, c4: string, ts: seq<Triple>)
    requires |ts| == 5
    requires MatchTriple(c0) == Some(ts[0]) && MatchTriple(c1) == Some(ts[1]) && MatchTriple(c2) == Some(ts[2])
    requires MatchTriple(c3) == Some(ts[3]) && MatchTriple(c4) == Some(ts[4])
    ensures ParseTriples([c0, c1, c2, c3, c4]) == Ok(ts)
  {
    var c := [c0, c1, c2, c3, c4];
    Snoc5(ts);
    Snoc5(c);
    ParseTriplesSnoc([], c[0], [], ts[0]);
    ParseTriplesSnoc([c[0]], c[1], [ts[0]], ts[1]);
    ParseTriplesSnoc([c[0]] + [c[1]], c[2], [ts[0]] + [ts[1]], ts[2]);
    ParseTriplesSnoc([c[0]] + [c[1]] + [c[2]], c[3], [ts[0]] + [ts[1]] + [ts[2]], ts[3]);
    ParseTriplesSnoc([c[0]] + [c[1]] + [c[2]] + [c[3]], c[4], [ts[0]] + [ts[1]] + [ts[2]] + [ts[3]], ts[4]);
  }

  /** Five chunks, all but the first after one space, that each match parse into their five triples. */
  lemma FiveChunks(x0: string, x1: string, x2: string, x3: string, x4: string, ts: seq<Triple>)
    requires |ts| == 5
    requires MatchTerms(x0) == Some(ts[0]) && MatchTerms(x1) == Some(ts[1]) && MatchTerms(x2) == Some(ts[2])
    requires MatchTerms(x3) == Some(ts[3]) && MatchTerms(x4) == Some(ts[4])
    requires x0 != [] && !IsSpace(x0[0]) && x1 != [] && !IsSpace(x1[0]) && x2 != [] && !IsSpace(x2[0])
    requires x3 != [] && !IsSpace(x3[0]) && x4 != [] && !IsSpace(x4[0])
    ensures ParseTriples([x0, " " + x1, " " + x2, " " + x3, " " + x4]) == Ok(ts)
  {
    SpacedMatch(x0, ts[0]);
    SpacedMatch(x1, ts[1]);
    SpacedMatch(x2, ts[2]);
    SpacedMatch(x3, ts[3]);
    SpacedMatch(x4, ts[4]);
    FiveMatches(x0, " " + x1, " " + x2, " " + x3, " " + x4, ts);
  }

  /** The chunks of the example match its five triples. */
  lemma ExampleChunks()
    ensures ParseTriples(["?x occupation politician ", " " + "?x country_of_citizenship Germany ", " " + "?x spouse ?y ",
                          " " + "?x place_of_birth ?z ", " " + "?y place_of_birth ?z "])
         == Ok(ExampleTriples())
  {
    ExampleChunksOf("?x occupation politician ", "?x country_of_citizenship Germany ", "?x spouse ?y ",
                    "?x place_of_birth ?z ", "?y place_of_birth ?z ", ExampleTriples());
  }

  lemma ExampleChunksOf(x0: string, x1: string, x2: string, x3: string, x4: string, ts: seq<Triple>)
    requires x0 == "?x occupation politician " && x1 == "?x country_of_citizenship Germany " && x2 == "?x spouse ?y "
    requires x3 == "?x place_of_birth ?z " && x4 == "?y place_of_birth ?z "
    requires ts == ExampleTriples()
    ensures ParseTriples([x0, " " + x1, " " + x2, " " + x3, " " + x4]) == Ok(ts)
  {
    var t0, t1, t2, t3, t4 := ts[0], ts[1], ts[2], ts[3], ts[4];
    assert t0 == Triple("?x", "occupation", "politician") && t1 == Triple("?x", "country_of_citizenship", "Germany");
    assert t2 == Triple("?x", "spouse", "?y") && t3 == Triple("?x", "place_of_birth", "?z");
    assert t4 == Triple("?y", "place_of_birth", "?z");
    ExampleTerms0(x0, t0);
    ExampleTerms1(x1, t1);
    ExampleTerms2(x2, t2);
    ExampleTerms3(x3, t3);
    ExampleTerms4(x4, t4);
    FiveChunks(x0, x1, x2, x3, x4, ts);
  }

  /** The example query is `SELECT ?x ?y WHERE {` and the body of five pieces, then `}`. */
  lemma ExampleQueryShape()
    ensures ExampleQuery() == "SELECT " + "?x ?y" + " WHERE {"
      + ("?x occupation politician . " + "?x country_of_citizenship Germany . " + "?x spouse ?y . "
         + "?x place_of_birth ?z . " + "?y place_of_birth ?z ") + "}"
  {
    var p0, p1, p2, p3, p4 := "?x occupation politician . ", "?x country_of_citizenship Germany . ",
                              "?x spouse ?y . ", "?x place_of_birth ?z . ", "?y place_of_birth ?z ";
    var head := "SELECT ?x ?y WHERE {";
    assert head == "SELECT " + "?x ?y" + " WHERE {";
    AppendAssoc(head + p0 + p1 + p2, p3, p4);
    AppendAssoc(head + p0 + p1, p2, p3 + p4);
    AppendAssoc(head + p0, p1, p2 + (p3 + p4));
    AppendAssoc(head, p0, p1 + (p2 + (p3 + p4)));
    Nest(p0, p1, p2, p3, p4, []);
  }

  /** The example query parses into the variables `?x`, `?y`, its five triples and no LIMIT. */
  lemma ExampleParse()
    ensures Parse(ExampleQuery()) == Ok(Query(["?x", "?y"], ExampleTriples(), None))
  {
    ExampleQueryShape();
    ExampleParseOf(ExampleQuery(), "?x ?y",
                   "?x occupation politician . " + "?x country_of_citizenship Germany . " + "?x spouse ?y . "
                   + "?x place_of_birth ?z . " + "?y place_of_birth ?z ");
  }

  lemma ExampleParseOf(q: string, vars: string, body: string)
    requires vars == "?x ?y"
    requires body == "?x occupation politician . " + "?x country_of_citizenship Germany . " + "?x spouse ?y . "
                     + "?x place_of_birth ?z . " + "?y place_of_birth ?z "
    requires q == "SELECT " + vars + " WHERE {" + body + "}"
    ensures Parse(q) == Ok(Query(["?x", "?y"], ExampleTriples(), None))
  {
    QueryShape(q, vars, body);
    ExampleVariables();
    ExampleSplit();
    ExampleChunks();
  }

  /** `v` has been recorded, first at column `col`. */
  predicate FirstColumn(occ: map<string, seq<string>>, v: string, col: string)
  {
    v in occ && occ[v] != [] && occ[v][0] == col
  }

  lemma ColumnText(i: nat, field: string, text: string)
    requires i < 10 && text == "t" + [DigitChar(i)] + "." + field
    ensures Column(i, field) == text
  {
  }

  lemma ExampleCondText0()
    ensures "t0.predicate=\"occupation\"" == "t0.predicate" + "=\"" + "occupation" + "\""
  {
    assert "t0.predicate=\"occupation\"" == "t0.predicate=\"occupation" + "\"";
    assert "t0.predicate=\"occupation" == "t0.predicate=\"" + "occupation";
    assert "t0.predicate=\"" == "t0.predicate" + "=\"";
  }

  lemma ExampleCondText1()
    ensures "t0.object=\"politician\"" == "t0.object" + "=\"" + "politician" + "\""
  {
    assert "t0.object=\"politician\"" == "t0.object=\"politician" + "\"";
    assert "t0.object=\"politician" == "t0.object=\"" + "politician";
    assert "t0.object=\"" == "t0.object" + "=\"";
  }

  lemma ExampleCondText2()
    ensures "t1.predicate=\"country_of_citizenship\"" == "t1.predicate" + "=\"" + "country_of_citizenship" + "\""
  {
    assert "t1.predicate=\"country_of_citizenship\"" == "t1.predicate=\"country_of_citizenship" + "\"";
    assert "t1.predicate=\"country_of_citizenship" == "t1.predicate=\"country_of_" + "citizenship";
    assert "t1.predicate=\"country_of_" == "t1.predicate=\"" + "country_of_";
    assert "country_of_citizenship" == "country_of_" + "citizenship";
    AppendAssoc("t1.predicate=\"", "country_of_", "citizenship");
    assert "t1.predicate=\"" == "t1.predicate" + "=\"";
  }

  lemma ExampleCondText3()
    ensures "t1.subject=t0.subject" == "t1.subject" + "=" + "t0.subject"
  {
    assert "t1.subject=t0.subject" == "t1.subject=" + "t0.subject";
    assert "t1.subject=" == "t1.subject" + "=";
  }

  lemma ExampleCondText4()
    ensures "t1.object=\"Germany\"" == "t1.object" + "=\"" + "Germany" + "\""
  {
    assert "t1.object=\"Germany\"" == "t1.object=\"Germany" + "\"";
    assert "t1.object=\"Germany" == "t1.object=\"" + "Germany";
    assert "t1.object=\"" == "t1.object" + "=\"";
  }

  lemma ExampleCondText5()
    ensures "t2.predicate=\"spouse\"" == "t2.predicate" + "=\"" + "spouse" + "\""
  {
    assert "t2.predicate=\"spouse\"" == "t2.predicate=\"spouse" + "\"";
    assert "t2.predicate=\"spouse" == "t2.predicate=\"" + "spouse";
    assert "t2.predicate=\"" == "t2.predicate" + "=\"";
  }

  lemma ExampleCondText6()
    ensures "t2.subject=t0.subject" == "t2.subject" + "=" + "t0.subject"
  {
    assert "t2.subject=t0.subject" == "t2.subject=" + "t0.subject";
    assert "t2.subject=" == "t2.subject" + "=";
  }

  lemma ExampleCondText7()
    ensures "t3.predicate=\"place_of_birth\"" == "t3.predicate" + "=\"" + "place_of_birth" + "\""
  {
    assert "t3.predicate=\"place_of_birth\"" == "t3.predicate=\"place_of_birth" + "\"";
    assert "t3.predicate=\"place_of_birth" == "t3.predicate=\"" + "place_of_birth";
    assert "t3.predicate=\"" == "t3.predicate" + "=\"";
  }

  lemma ExampleCondText8()
    ensures "t3.subject=t0.subject" == "t3.subject" + "=" + "t0.subject"
  {
    assert "t3.subject=t0.subject" == "t3.subject=" + "t0.subject";
    assert "t3.subject=" == "t3.subject" + "=";
  }

  lemma ExampleCondText9()
    ensures "t4.predicate=\"place_of_birth\"" == "t4.predicate" + "=\"" + "place_of_birth" + "\""
  {
    assert "t4.predicate=\"place_of_birth\"" == "t4.predicate=\"place_of_birth" + "\"";
    assert "t4.predicate=\"place_of_birth" == "t4.predicate=\"" + "place_of_birth";
    assert "t4.predicate=\"" == "t4.predicate" + "=\"";
  }

  lemma ExampleCondText10()
    ensures "t4.subject=t2.object" == "t4.subject" + "=" + "t2.object"
  {
    assert "t4.subject=t2.object" == "t4.subject=" + "t2.object";
    assert "t4.subject=" == "t4.subject" + "=";
  }

  lemma ExampleCondText11()
    ensures "t4.object=t3.object" == "t4.object" + "=" + "t3.object"
  {
    assert "t4.object=t3.object" == "t4.object=" + "t3.object";
    assert "t4.object=" == "t4.object" + "=";
  }

  lemma ExampleTriple0(occ: map<string, seq<string>>, t: Triple)
    requires Recorded(occ)
    requires t == Triple("?x", "occupation", "politician")
    requires occ == map[]
    ensures TripleConds(occ, t, 0) == ["t0.predicate=\"occupation\"", "t0.object=\"politician\""]
    ensures FirstColumn(StepOcc(occ, t, 0), "?x", "t0.subject")
    ensures "?y" !in StepOcc(occ, t, 0)
    ensures "?z" !in StepOcc(occ, t, 0)
  {
    ColumnText(0, "predicate", "t0.predicate");
    ColumnText(0, "object", "t0.object");
    ColumnText(0, "subject", "t0.subject");
    ExampleCondText0();
    ExampleCondText1();
  }

  lemma ExampleTriple1(occ: map<string, seq<string>>, t: Triple)
    requires Recorded(occ)
    requires t == Triple("?x", "country_of_citizenship", "Germany")
    requires FirstColumn(occ, "?x", "t0.subject")
    requires "?y" !in occ
    requires "?z" !in occ
    ensures TripleConds(occ, t, 1) == ["t1.predicate=\"country_of_citizenship\"", "t1.subject=t0.subject", "t1.object=\"Germany\""]
    ensures FirstColumn(StepOcc(occ, t, 1), "?x", "t0.subject")
    ensures "?y" !in StepOcc(occ, t, 1)
    ensures "?z" !in StepOcc(occ, t, 1)
  {
    ColumnText(1, "predicate", "t1.predicate");
    ColumnText(1, "subject", "t1.subject");
    ColumnText(1, "object", "t1.object");
    ExampleCondText2();
    ExampleCondText3();
    ExampleCondText4();
  }

  lemma ExampleTriple2(occ: map<string, seq<string>>, t: Triple)
    requires Recorded(occ)
    requires t == Triple("?x", "spouse", "?y")
    requires FirstColumn(occ, "?x", "t0.subject")
    requires "?y" !in occ
    requires "?z" !in occ
    ensures TripleConds(occ, t, 2) == ["t2.predicate=\"spouse\"", "t2.subject=t0.subject"]
    ensures FirstColumn(StepOcc(occ, t, 2), "?x", "t0.subject")
    ensures FirstColumn(StepOcc(occ, t, 2), "?y", "t2.object")
    ensures "?z" !in StepOcc(occ, t, 2)
  {
    ColumnText(2, "predicate", "t2.predicate");
    ColumnText(2, "subject", "t2.subject");
    ColumnText(2, "object", "t2.object");
    ExampleCondText5();
    ExampleCondText6();
  }

  lemma ExampleTriple3(occ: map<string, seq<string>>, t: Triple)
    requires Recorded(occ)
    requires t == Triple("?x", "place_of_birth", "?z")
    requires FirstColumn(occ, "?x", "t0.subject")
    requires FirstColumn(occ, "?y", "t2.object")
    requires "?z" !in occ
    ensures TripleConds(occ, t, 3) == ["t3.predicate=\"place_of_birth\"", "t3.subject=t0.subject"]
    ensures FirstColumn(StepOcc(occ, t, 3), "?x", "t0.subject")
    ensures FirstColumn(StepOcc(occ, t, 3), "?y", "t2.object")
    ensures FirstColumn(StepOcc(occ, t, 3), "?z", "t3.object")
  {
    ColumnText(3, "predicate", "t3.predicate");
    ColumnText(3, "subject", "t3.subject");
    ColumnText(3, "object", "t3.object");
    ExampleCondText7();
    ExampleCondText8();
  }

  lemma ExampleTriple4(occ: map<string, seq<string>>, t: Triple)
    requires Recorded(occ)
    requires t == Triple("?y", "place_of_birth", "?z")
    requires FirstColumn(occ, "?x", "t0.subject")
    requires FirstColumn(occ, "?y", "t2.object")
    requires FirstColumn(occ, "?z", "t3.object")
    ensures TripleConds(occ, t, 4) == ["t4.predicate=\"place_of_birth\"", "t4.subject=t2.object", "t4.object=t3.object"]
    ensures FirstColumn(StepOcc(occ, t, 4), "?x", "t0.subject")
    ensures FirstColumn(StepOcc(occ, t, 4), "?y", "t2.object")
  {
    ColumnText(4, "predicate", "t4.predicate");
    ColumnText(4, "subject", "t4.subject");
    ColumnText(4, "object", "t4.object");
    ExampleCondText9();
    ExampleCondText10();
    ExampleCondText11();
  }

  lemma JoinWithTwo(a: string, b: string, sep: string)
    ensures JoinWith([a, b], sep) == a + sep + b
  {
    assert [a, b][..1] == [a];
  }

  lemma JoinWithThree(a: string, b: string, c: string, sep: string)
    ensures JoinWith([a, b, c], sep) == a + sep + b + sep + c
  {
    assert [a, b, c][..2] == [a, b];
    JoinWithTwo(a, b, sep);
  }

  /** `x + y + (p + s + q)` regrouped to the left. */
  lemma Flat2(x: string, y: string, p: string, s: string, q: string)
    ensures x + (y + (p + s + q)) == x + y + p + s + q
  {
    AppendAssoc(x, y, p + s + q);
    AppendAssoc(x + y, p + s, q);
    AppendAssoc(x + y, p, s);
  }

  /** Five FROM items, written out. */
  lemma FromFive(x: string, i0: string, i1: string, i2: string, i3: string, i4: string)
    requires FromItem(0) == i0 && FromItem(1) == i1 && FromItem(2) == i2 && FromItem(3) == i3 && FromItem(4) == i4
    ensures x + FromClause(5) == x + " FROM " + i0 + ", " + i1 + ", " + i2 + ", " + i3 + ", " + i4
  {
    assert FromItems(0) == [];
    FromStep(0);
    AppendAssoc(x, FromClause(0), i0);
    var y := x + " FROM " + i0;
    FromMore(x, 1, y, i1);
    y := y + ", " + i1;
    FromMore(x, 2, y, i2);
    y := y + ", " + i2;
    FromMore(x, 3, y, i3);
    y := y + ", " + i3;
    FromMore(x, 4, y, i4);
  }

  lemma FromMore(x: string, i: nat, y: string, item: string)
    requires i > 0 && x + FromClause(i) == y && FromItem(i) == item
    ensures x + FromClause(i + 1) == y + ", " + item
  {
    FromStep(i);
    AppendAssoc(x, FromClause(i) + ", ", item);
    AppendAssoc(x, FromClause(i), ", ");
  }

  /** The WHERE clause after a first triple with two conditions. */
  lemma WhereFirst2(x: string, ts: seq<Triple>, c: string, d: string)
    requires |ts| >= 1 && TripleConds(VarOcc(ts[..0]), ts[0], 0) == [c, d]
    ensures x + WhereClause(ts[..1]) == x + " WHERE " + c + " AND " + d
  {
    WhereStep(ts, 0);
    assert ts[..0] == [];
    assert WhereClause(ts[..0]) == " WHERE ";
    JoinWithTwo(c, d, " AND ");
    Flat2(x, " WHERE ", c, " AND ", d);
  }

  /** `x + y + (p + s + q + s + r)` regrouped to the left. */
  lemma Flat3(x: string, y: string, p: string, s: string, q: string, r: string)
    ensures x + (y + (p + s + q + s + r)) == x + y + p + s + q + s + r
  {
    AppendAssoc(x, y, p + s + q + s + r);
    AppendAssoc(x + y, p + s + q + s, r);
    AppendAssoc(x + y, p + s + q, s);
    AppendAssoc(x + y, p + s, q);
    AppendAssoc(x + y, p, s);
  }

  /** A later triple's conditions join the WHERE clause after ` AND `. */
  lemma WhereNext(x: string, ts: seq<Triple>, k: nat, w: string)
    requires 0 < k < |ts| && x + WhereClause(ts[..k]) == w
    ensures x + WhereClause(ts[..k + 1]) == w + (" AND " + JoinWith(TripleConds(VarOcc(ts[..k]), ts[k], k), " AND "))
  {
    WhereStep(ts, k);
    var j := JoinWith(TripleConds(VarOcc(ts[..k]), ts[k], k), " AND ");
    AppendAssoc(x, WhereClause(ts[..k]) + " AND ", j);
    AppendAssoc(x, WhereClause(ts[..k]), " AND ");
    AppendAssoc(w, " AND ", j);
  }

  /** The WHERE clause grows by a later triple with two conditions. */
  lemma WhereNext2(x: string, ts: seq<Triple>, k: nat, w: string, c: string, d: string)
    requires 0 < k < |ts| && x + WhereClause(ts[..k]) == w
    requires TripleConds(VarOcc(ts[..k]), ts[k], k) == [c, d]
    ensures x + WhereClause(ts[..k + 1]) == w + " AND " + c + " AND " + d
  {
    WhereNext(x, ts, k, w);
    JoinWithTwo(c, d, " AND ");
    Flat2(w, " AND ", c, " AND ", d);
  }

  /** The WHERE clause grows by a later triple with three conditions. */
  lemma WhereNext3(x: string, ts: seq<Triple>, k: nat, w: string, c: string, d: string, e: string)
    requires 0 < k < |ts| && x + WhereClause(ts[..k]) == w
    requires TripleConds(VarOcc(ts[..k]), ts[k], k) == [c, d, e]
    ensures x + WhereClause(ts[..k + 1]) == w + " AND " + c + " AND " + d + " AND " + e
  {
    WhereNext(x, ts, k, w);
    JoinWithThree(c, d, e, " AND ");
    Flat3(w, " AND ", c, " AND ", d, e);
  }

  /** SELECT and FROM of a two-column, five-triple query, in their pieces. */
  lemma SelectFromFive(a: string, b: string, i0: string, i1: string, i2: string, i3: string, i4: string)
    requires FromItem(0) == i0 && FromItem(1) == i1 && FromItem(2) == i2 && FromItem(3) == i3 && FromItem(4) == i4
    ensures SelectClause([a, b]) + FromClause(5) ==
            "SELECT " + a + ", " + b + " FROM " + i0 + ", " + i1 + ", " + i2 + ", " + i3 + ", " + i4
  {
    JoinWithTwo(a, b, ", ");
    Flat2("SELECT ", "", a, ", ", b);
    assert "" + (a + ", " + b) == a + ", " + b;
    FromFive("SELECT " + a + ", " + b, i0, i1, i2, i3, i4);
  }

  /** WHERE of a five-triple query whose triples give 2, 3, 2, 2 and 3 conditions. */
  lemma WhereFive(x: string, ts: seq<Triple>, c0: string, c1: string, c2: string, c3: string, c4: string, c5: string, c6: string, c7: string, c8: string, c9: string, c10: string, c11: string)
    requires |ts| == 5
    requires TripleConds(VarOcc(ts[..0]), ts[0], 0) == [c0, c1]
    requires TripleConds(VarOcc(ts[..1]), ts[1], 1) == [c2, c3, c4]
    requires TripleConds(VarOcc(ts[..2]), ts[2], 2) == [c5, c6]
    requires TripleConds(VarOcc(ts[..3]), ts[3], 3) == [c7, c8]
    requires TripleConds(VarOcc(ts[..4]), ts[4], 4) == [c9, c10, c11]
    ensures x + WhereClause(ts) == x + " WHERE " + c0 + " AND " + c1 + " AND " + c2 + " AND " + c3 + " AND " + c4 + " AND " + c5 + " AND " + c6 + " AND " + c7 + " AND " + c8 + " AND " + c9 + " AND " + c10 + " AND " + c11
  {
    WhereFirstTwo(x, ts, c0, c1, c2, c3, c4);
    WhereLastThree(x, ts, x + " WHERE " + c0 + " AND " + c1 + " AND " + c2 + " AND " + c3 + " AND " + c4,
                   c5, c6, c7, c8, c9, c10, c11);
  }

  /** The WHERE clause grown by the last three triples of a five-triple query shaped like the example. */
  lemma WhereLastThree(x: string, ts: seq<Triple>, w: string,
                       c5: string, c6: string, c7: string, c8: string, c9: string, c10: string, c11: string)
    requires |ts| == 5 && x + WhereClause(ts[..2]) == w
    requires TripleConds(VarOcc(ts[..2]), ts[2], 2) == [c5, c6]
    requires TripleConds(VarOcc(ts[..3]), ts[3], 3) == [c7, c8]
    requires TripleConds(VarOcc(ts[..4]), ts[4], 4) == [c9, c10, c11]
    ensures x + WhereClause(ts) == w + " AND " + c5 + " AND " + c6 + " AND " + c7 + " AND " + c8 + " AND " + c9 + " AND " + c10 + " AND " + c11
  {
    WhereNext2(x, ts, 2, w, c5, c6);
    var w' := w + " AND " + c5 + " AND " + c6;
    WhereNext2(x, ts, 3, w', c7, c8);
    w' := w' + " AND " + c7 + " AND " + c8;
    WhereNext3(x, ts, 4, w', c9, c10, c11);
    assert ts[..5] == ts;
  }

  /** The WHERE clause of the first two triples of a five-triple query shaped like the example. */
  lemma WhereFirstTwo(x: string, ts: seq<Triple>, c0: string, c1: string, c2: string, c3: string, c4: string)
    requires |ts| == 5
    requires TripleConds(VarOcc(ts[..0]), ts[0], 0) == [c0, c1]
    requires TripleConds(VarOcc(ts[..1]), ts[1], 1) == [c2, c3, c4]
    ensures x + WhereClause(ts[..2]) == x + " WHERE " + c0 + " AND " + c1 + " AND " + c2 + " AND " + c3 + " AND " + c4
  {
    WhereFirst2(x, ts, c0, c1);
    WhereNext3(x, ts, 1, x + " WHERE " + c0 + " AND " + c1, c2, c3, c4);
  }

  /** The SQL of a five-triple query shaped like the example, in its pieces. */
  lemma ExampleSqlOf(ts: seq<Triple>, a: string, b: string,
                     i0: string, i1: string, i2: string, i3: string, i4: string,
                     c0: string, c1: string, c2: string, c3: string, c4: string, c5: string,
                     c6: string, c7: string, c8: string, c9: string, c10: string, c11: string)
    requires |ts| == 5 && SelectColumns(["?x", "?y"], VarOcc(ts)) == Ok([a, b])
    requires FromItem(0) == i0 && FromItem(1) == i1 && FromItem(2) == i2 && FromItem(3) == i3 && FromItem(4) == i4
    requires TripleConds(VarOcc(ts[..0]), ts[0], 0) == [c0, c1]
    requires TripleConds(VarOcc(ts[..1]), ts[1], 1) == [c2, c3, c4]
    requires TripleConds(VarOcc(ts[..2]), ts[2], 2) == [c5, c6]
    requires TripleConds(VarOcc(ts[..3]), ts[3], 3) == [c7, c8]
    requires TripleConds(VarOcc(ts[..4]), ts[4], 4) == [c9, c10, c11]
    ensures Sql(Query(["?x", "?y"], ts, None)) == Ok("SELECT " + a + ", " + b + " FROM " + i0 + ", " + i1 + ", " + i2 + ", " + i3 + ", " + i4 + " WHERE " + c0 + " AND " + c1 + " AND " + c2 + " AND " + c3 + " AND " + c4 + " AND " + c5 + " AND " + c6 + " AND " + c7 + " AND " + c8 + " AND " + c9 + " AND " + c10 + " AND " + c11 + ";")
  {
    SelectFromFive(a, b, i0, i1, i2, i3, i4);
    var x := "SELECT " + a + ", " + b + " FROM " + i0 + ", " + i1 + ", " + i2 + ", " + i3 + ", " + i4;
    WhereFive(x, ts, c0, c1, c2, c3, c4, c5, c6, c7, c8, c9, c10, c11);
    var w := x + " WHERE " + c0 + " AND " + c1 + " AND " + c2 + " AND " + c3 + " AND " + c4 + " AND " + c5 + " AND " + c6 + " AND " + c7 + " AND " + c8 + " AND " + c9 + " AND " + c10 + " AND " + c11;
    SqlNoLimit(Query(["?x", "?y"], ts, None), [a, b], x, w);
  }

  /** Without LIMIT, the SQL is SELECT, FROM and WHERE followed by `;`. */
  lemma SqlNoLimit(q: Query, cols: seq<string>, x: string, w: string)
    requires q.limit == None && SelectColumns(q.variables, VarOcc(q.triples)) == Ok(cols)
    requires SelectClause(cols) + FromClause(|q.triples|) == x && x + WhereClause(q.triples) == w
    ensures Sql(q) == Ok(w + ";")
  {
    assert w + "" == w;
  }

  lemma FromItemText(i: nat, text: string)
    requires i < 10 && text == "wikidata as t" + [DigitChar(i)]
    ensures FromItem(i) == text
  {
  }

  /** The example's selected variables sit at t0.subject and t2.object. */
  lemma ExampleSelect(occ: map<string, seq<string>>)
    requires Recorded(occ)
    requires FirstColumn(occ, "?x", "t0.subject") && FirstColumn(occ, "?y", "t2.object")
    ensures SelectColumns(["?x", "?y"], occ) == Ok(["t0.subject", "t2.object"])
  {
    var vs := ["?x", "?y"];
    assert vs[0] in occ && vs[1] in occ;
    assert !exists k :: 0 <= k < |vs| && vs[k] !in occ by {
      forall k | 0 <= k < |vs| ensures vs[k] in occ {
        assert k == 0 || k == 1;
      }
    }
    var cols := seq(|vs|, k requires 0 <= k < |vs| => occ[vs[k]][0]);
    assert cols[0] == "t0.subject" && cols[1] == "t2.object";
    assert cols == ["t0.subject", "t2.object"];
  }

  lemma ExampleStep0(ts: seq<Triple>)
    requires 0 < |ts| && ts[0] == Triple("?x", "occupation", "politician")
    ensures TripleConds(VarOcc(ts[..0]), ts[0], 0) == ["t0.predicate=\"occupation\"", "t0.object=\"politician\""]
    ensures FirstColumn(VarOcc(ts[..1]), "?x", "t0.subject")
    ensures "?y" !in VarOcc(ts[..1])
    ensures "?z" !in VarOcc(ts[..1])
  {
    assert ts[..0] == [];
    WhereStep(ts, 0);
    ExampleTriple0(VarOcc(ts[..0]), ts[0]);
  }

  lemma ExampleStep1(ts: seq<Triple>)
    requires 1 < |ts| && ts[1] == Triple("?x", "country_of_citizenship", "Germany")
    requires FirstColumn(VarOcc(ts[..1]), "?x", "t0.subject")
    requires "?y" !in VarOcc(ts[..1])
    requires "?z" !in VarOcc(ts[..1])
    ensures TripleConds(VarOcc(ts[..1]), ts[1], 1) == ["t1.predicate=\"country_of_citizenship\"", "t1.subject=t0.subject", "t1.object=\"Germany\""]
    ensures FirstColumn(VarOcc(ts[..2]), "?x", "t0.subject")
    ensures "?y" !in VarOcc(ts[..2])
    ensures "?z" !in VarOcc(ts[..2])
  {
    WhereStep(ts, 1);
    ExampleTriple1(VarOcc(ts[..1]), ts[1]);
  }

  lemma ExampleStep2(ts: seq<Triple>)
    requires 2 < |ts| && ts[2] == Triple("?x", "spouse", "?y")
    requires FirstColumn(VarOcc(ts[..2]), "?x", "t0.subject")
    requires "?y" !in VarOcc(ts[..2])
    requires "?z" !in VarOcc(ts[..2])
    ensures TripleConds(VarOcc(ts[..2]), ts[2], 2) == ["t2.predicate=\"spouse\"", "t2.subject=t0.subject"]
    ensures FirstColumn(VarOcc(ts[..3]), "?x", "t0.subject")
    ensures FirstColumn(VarOcc(ts[..3]), "?y", "t2.object")
    ensures "?z" !in VarOcc(ts[..3])
  {
    WhereStep(ts, 2);
    ExampleTriple2(VarOcc(ts[..2]), ts[2]);
  }

  lemma ExampleStep3(ts: seq<Triple>)
    requires 3 < |ts| && ts[3] == Triple("?x", "place_of_birth", "?z")
    requires FirstColumn(VarOcc(ts[..3]), "?x", "t0.subject")
    requires FirstColumn(VarOcc(ts[..3]), "?y", "t2.object")
    requires "?z" !in VarOcc(ts[..3])
    ensures TripleConds(VarOcc(ts[..3]), ts[3], 3) == ["t3.predicate=\"place_of_birth\"", "t3.subject=t0.subject"]
    ensures FirstColumn(VarOcc(ts[..4]), "?x", "t0.subject")
    ensures FirstColumn(VarOcc(ts[..4]), "?y", "t2.object")
    ensures FirstColumn(VarOcc(ts[..4]), "?z", "t3.object")
  {
    WhereStep(ts, 3);
    ExampleTriple3(VarOcc(ts[..3]), ts[3]);
  }

  lemma ExampleStep4(ts: seq<Triple>)
    requires 4 < |ts| && ts[4] == Triple("?y", "place_of_birth", "?z")
    requires FirstColumn(VarOcc(ts[..4]), "?x", "t0.subject")
    requires FirstColumn(VarOcc(ts[..4]), "?y", "t2.object")
    requires FirstColumn(VarOcc(ts[..4]), "?z", "t3.object")
    ensures TripleConds(VarOcc(ts[..4]), ts[4], 4) == ["t4.predicate=\"place_of_birth\"", "t4.subject=t2.object", "t4.object=t3.object"]
    ensures FirstColumn(VarOcc(ts[..5]), "?x", "t0.subject")
    ensures FirstColumn(VarOcc(ts[..5]), "?y", "t2.object")
  {
    WhereStep(ts, 4);
    ExampleTriple4(VarOcc(ts[..4]), ts[4]);
  }


  /** The facts the example's SQL is assembled from. */
  lemma ExampleSqlFacts(ts: seq<Triple>)
    requires |ts| == 5
    requires ts[0] == Triple("?x", "occupation", "politician") && ts[1] == Triple("?x", "country_of_citizenship", "Germany")
    requires ts[2] == Triple("?x", "spouse", "?y") && ts[3] == Triple("?x", "place_of_birth", "?z")
    requires ts[4] == Triple("?y", "place_of_birth", "?z")
    ensures SelectColumns(["?x", "?y"], VarOcc(ts)) == Ok(["t0.subject", "t2.object"])
    ensures TripleConds(VarOcc(ts[..0]), ts[0], 0) == ["t0.predicate=\"occupation\"", "t0.object=\"politician\""]
    ensures TripleConds(VarOcc(ts[..1]), ts[1], 1) == ["t1.predicate=\"country_of_citizenship\"", "t1.subject=t0.subject", "t1.object=\"Germany\""]
    ensures TripleConds(VarOcc(ts[..2]), ts[2], 2) == ["t2.predicate=\"spouse\"", "t2.subject=t0.subject"]
    ensures TripleConds(VarOcc(ts[..3]), ts[3], 3) == ["t3.predicate=\"place_of_birth\"", "t3.subject=t0.subject"]
    ensures TripleConds(VarOcc(ts[..4]), ts[4], 4) == ["t4.predicate=\"place_of_birth\"", "t4.subject=t2.object", "t4.object=t3.object"]
  {
    ExampleStep0(ts);
    ExampleStep1(ts);
    ExampleStep2(ts);
    ExampleStep3(ts);
    ExampleStep4(ts);
    ExampleSelectAt(ts);
  }

  lemma ExampleSelectAt(ts: seq<Triple>)
    requires |ts| == 5
    requires FirstColumn(VarOcc(ts[..5]), "?x", "t0.subject") && FirstColumn(VarOcc(ts[..5]), "?y", "t2.object")
    ensures SelectColumns(["?x", "?y"], VarOcc(ts)) == Ok(["t0.subject", "t2.object"])
  {
    assert ts[..5] == ts;
    ExampleSelect(VarOcc(ts));
  }

  lemma ExampleFromItems()
    ensures FromItem(0) == "wikidata as t0" && FromItem(1) == "wikidata as t1" && FromItem(2) == "wikidata as t2"
    ensures FromItem(3) == "wikidata as t3" && FromItem(4) == "wikidata as t4"
  {
    FromItemText(0, "wikidata as t0");
    FromItemText(1, "wikidata as t1");
    FromItemText(2, "wikidata as t2");
    FromItemText(3, "wikidata as t3");
    FromItemText(4, "wikidata as t4");
  }

  /** The SQL of the parsed example query. */
  lemma ExampleSql()
    ensures Sql(Query(["?x", "?y"], ExampleTriples(), None)) == Ok("SELECT " + "t0.subject" + ", " + "t2.object"
             + " FROM " + "wikidata as t0" + ", " + "wikidata as t1" + ", " + "wikidata as t2" + ", " + "wikidata as t3" + ", " + "wikidata as t4"
             + " WHERE " + "t0.predicate=\"occupation\""
             + " AND " + "t0.object=\"politician\""
             + " AND " + "t1.predicate=\"country_of_citizenship\""
             + " AND " + "t1.subject=t0.subject"
             + " AND " + "t1.object=\"Germany\""
             + " AND " + "t2.predicate=\"spouse\""
             + " AND " + "t2.subject=t0.subject"
             + " AND " + "t3.predicate=\"place_of_birth\""
             + " AND " + "t3.subject=t0.subject"
             + " AND " + "t4.predicate=\"place_of_birth\""
             + " AND " + "t4.subject=t2.object"
             + " AND " + "t4.object=t3.object"
             + ";")
  {
    ExampleSqlAt(ExampleTriples());
  }

  lemma ExampleSqlAt(ts: seq<Triple>)
    requires ts == ExampleTriples()
    ensures Sql(Query(["?x", "?y"], ts, None)) == Ok("SELECT " + "t0.subject" + ", " + "t2.object"
             + " FROM " + "wikidata as t0" + ", " + "wikidata as t1" + ", " + "wikidata as t2" + ", " + "wikidata as t3" + ", " + "wikidata as t4"
             + " WHERE " + "t0.predicate=\"occupation\""
             + " AND " + "t0.object=\"politician\""
             + " AND " + "t1.predicate=\"country_of_citizenship\""
             + " AND " + "t1.subject=t0.subject"
             + " AND " + "t1.object=\"Germany\""
             + " AND " + "t2.predicate=\"spouse\""
             + " AND " + "t2.subject=t0.subject"
             + " AND " + "t3.predicate=\"place_of_birth\""
             + " AND " + "t3.subject=t0.subject"
             + " AND " + "t4.predicate=\"place_of_birth\""
             + " AND " + "t4.subject=t2.object"
             + " AND " + "t4.object=t3.object"
             + ";")
  {
    assert |ts| == 5;
    assert ts[0] == Triple("?x", "occupation", "politician") && ts[1] == Triple("?x", "country_of_citizenship", "Germany");
    assert ts[2] == Triple("?x", "spouse", "?y") && ts[3] == Triple("?x", "place_of_birth", "?z");
    assert ts[4] == Triple("?y", "place_of_birth", "?z");
    ExampleSqlFacts(ts);
    ExampleFromItems();
    ExampleSqlOf(ts, "t0.subject", "t2.object",
                 "wikidata as t0", "wikidata as t1", "wikidata as t2", "wikidata as t3", "wikidata as t4",
                 "t0.predicate=\"occupation\"",
                 "t0.object=\"politician\"",
                 "t1.predicate=\"country_of_citizenship\"",
                 "t1.subject=t0.subject",
                 "t1.object=\"Germany\"",
                 "t2.predicate=\"spouse\"",
                 "t2.subject=t0.subject",
                 "t3.predicate=\"place_of_birth\"",
                 "t3.subject=t0.subject",
                 "t4.predicate=\"place_of_birth\"",
                 "t4.subject=t2.object",
                 "t4.object=t3.object");
  }

  /** The module's doctest: German politicians, their spouses, and a shared birthplace. */
  lemma ExampleTranslation()
    ensures SqlOf(ExampleQuery()) == Ok("SELECT " + "t0.subject" + ", " + "t2.object"
             + " FROM " + "wikidata as t0" + ", " + "wikidata as t1" + ", " + "wikidata as t2" + ", " + "wikidata as t3" + ", " + "wikidata as t4"
             + " WHERE " + "t0.predicate=\"occupation\""
             + " AND " + "t0.object=\"politician\""
             + " AND " + "t1.predicate=\"country_of_citizenship\""
             + " AND " + "t1.subject=t0.subject"
             + " AND " + "t1.object=\"Germany\""
             + " AND " + "t2.predicate=\"spouse\""
             + " AND " + "t2.subject=t0.subject"
             + " AND " + "t3.predicate=\"place_of_birth\""
             + " AND " + "t3.subject=t0.subject"
             + " AND " + "t4.predicate=\"place_of_birth\""
             + " AND " + "t4.subject=t2.object"
             + " AND " + "t4.object=t3.object"
             + ";")
  {
    ExampleParse();
    ExampleSql();
  }

  /** A one-triple query with a LIMIT parses into its variable, its triple and the LIMIT text. */
  lemma LimitExampleParse()
    ensures Parse("SELECT ?x WHERE { ?x p ?y } LIMIT 10") == Ok(Query(["?x"], [Triple("?x", "p", "?y")], Some("10")))
  {
    var vars, x, lim, t := "?x", "?x p ?y ", "10", Triple("?x", "p", "?y");
    LimitExampleVars(vars);
    LimitExampleWords(vars);
    LimitExampleNoBrace(lim);
    LimitExampleStrip(lim);
    LimitExampleTriples(x, " " + x, t);
    LimitExampleQuery();
    ParseWithLimit("SELECT ?x WHERE { ?x p ?y } LIMIT 10", vars, " " + x, lim, ["?x"], [t], "10");
  }

  /** With the shape of `LimitShape`, parsing gives the words, the triples of the body and the stripped LIMIT. */
  lemma ParseWithLimit(sparql: string, vars: string, body: string, lim: string,
                       words: seq<string>, ts: seq<Triple>, l: string)
    requires sparql == "SELECT " + vars + " WHERE {" + body + "} LIMIT " + lim
    requires forall k :: 0 <= k < |vars| ==> Lower(vars[k]) != 'w'
    requires forall k :: 0 <= k < |lim| ==> lim[k] != '}'
    requires SplitWhitespace(vars) == words && ParseTriples(Split(body, '.')) == Ok(ts) && Strip(lim) == l
    ensures Parse(sparql) == Ok(Query(words, ts, Some(l)))
  {
    LimitShape(sparql, vars, body, lim);
  }

  lemma LimitExampleVars(vars: string)
    requires vars == "?x"
    ensures forall k :: 0 <= k < |vars| ==> Lower(vars[k]) != 'w'
  {
    assert Lower(vars[0]) == '?' && Lower(vars[1]) == 'x';
  }

  lemma LimitExampleWords(vars: string)
    requires vars == "?x"
    ensures SplitWhitespace(vars) == ["?x"]
  {
    RunsWhole(vars, NonSpace);
  }

  lemma LimitExampleNoBrace(lim: string)
    requires lim == "10"
    ensures forall k :: 0 <= k < |lim| ==> lim[k] != '}'
  {
  }

  lemma LimitExampleStrip(lim: string)
    requires lim == "10"
    ensures Strip(lim) == "10"
  {
    StripUnchanged(lim);
  }

  lemma LimitExampleQuery()
    ensures "SELECT ?x WHERE { ?x p ?y } LIMIT 10" == "SELECT " + "?x" + " WHERE {" + (" " + "?x p ?y ") + "} LIMIT " + "10"
  {
  }

  lemma LimitExampleTriples(x: string, body: string, t: Triple)
    requires x == "?x p ?y " && body == " " + x && t == Triple("?x", "p", "?y")
    ensures ParseTriples(Split(body, '.')) == Ok([t])
  {
    LimitExampleMatch(x, t);
    LimitExampleNoDot(x);
    SpaceNoDot(x);
    JoinSplit([body], '.');
    assert [] + [body] == [body] && [] + [t] == [t];
    ParseTriplesSnoc([], body, [], t);
  }

  lemma LimitExampleMatch(x: string, t: Triple)
    requires x == "?x p ?y " && t == Triple("?x", "p", "?y")
    ensures MatchTriple(" " + x) == Some(t)
  {
    LimitExampleText();
    TermsOf("?x", "p", "?y");
    SpacedMatch(x, t);
  }

  lemma LimitExampleText()
    ensures "?x p ?y " == "?x" + " " + "p" + " " + "?y" + " "
  {
    assert "?x p ?y " == "?x p ?y" + " ";
    assert "?x p ?y" == "?x p" + " " + "?y";
    assert "?x p" == "?x" + " " + "p";
  }

  lemma LimitExampleNoDot(x: string)
    requires x == "?x p ?y "
    ensures '.' !in x
  {
  }

  /** The SQL of that query: one table, its predicate condition, then ` LIMIT 10`. */
  lemma LimitExampleSql()
    ensures Sql(Query(["?x"], [Triple("?x", "p", "?y")], Some("10")))
         == Ok("SELECT " + "t0.subject" + " FROM " + "wikidata as t0" + " WHERE " + "t0.predicate=\"p\"" + " LIMIT " + "10" + ";")
  {
    LimitExampleSqlOf([Triple("?x", "p", "?y")], "t0.subject", "wikidata as t0", "t0.predicate=\"p\"");
  }

  lemma LimitExampleSqlOf(ts: seq<Triple>, a: string, i0: string, c0: string)
    requires ts == [Triple("?x", "p", "?y")] && a == "t0.subject" && i0 == "wikidata as t0" && c0 == "t0.predicate=\"p\""
    ensures Sql(Query(["?x"], ts, Some("10"))) == Ok("SELECT " + a + " FROM " + i0 + " WHERE " + c0 + " LIMIT " + "10" + ";")
  {
    assert ts[..0] == [] && ts[..1] == ts;
    WhereStep(ts, 0);
    LimitExampleTriple(VarOcc(ts[..0]), ts[0]);
    LimitExampleSelect(VarOcc(ts));
    FromItemText(0, i0);
    assert FromItems(1) == [i0];
    assert JoinWith([a], ", ") == a && JoinWith([i0], ", ") == i0 && JoinWith([c0], " AND ") == c0;
    assert WhereClause(ts) == " WHERE " + c0;
    assert SelectClause(["t0.subject"]) == "SELECT " + a;
    assert FromClause(1) == " FROM " + i0;
    assert LimitClause(Some("10")) == " LIMIT " + "10";
    AppendAssoc("SELECT " + a, " FROM ", i0);
    AppendAssoc("SELECT " + a + " FROM " + i0, " WHERE ", c0);
    AppendAssoc("SELECT " + a + " FROM " + i0 + " WHERE " + c0, " LIMIT ", "10");
  }

  lemma LimitExampleTriple(occ: map<string, seq<string>>, t: Triple)
    requires Recorded(occ)
    requires t == Triple("?x", "p", "?y")
    requires occ == map[]
    ensures TripleConds(occ, t, 0) == ["t0.predicate=\"p\""]
    ensures FirstColumn(StepOcc(occ, t, 0), "?x", "t0.subject")
  {
    ColumnText(0, "predicate", "t0.predicate");
    ColumnText(0, "object", "t0.object");
    ColumnText(0, "subject", "t0.subject");
    LimitExampleCondText();
  }

  lemma LimitExampleCondText()
    ensures "t0.predicate=\"p\"" == "t0.predicate" + "=\"" + "p" + "\""
  {
    assert "t0.predicate=\"p\"" == "t0.predicate=\"p" + "\"";
    assert "t0.predicate=\"p" == "t0.predicate=\"" + "p";
    assert "t0.predicate=\"" == "t0.predicate" + "=\"";
  }

  lemma LimitExampleSelect(occ: map<string, seq<string>>)
    requires Recorded(occ)
    requires FirstColumn(occ, "?x", "t0.subject")
    ensures SelectColumns(["?x"], occ) == Ok(["t0.subject"])
  {
    var vs := ["?x"];
    assert !exists k :: 0 <= k < |vs| && vs[k] !in occ by {
      forall k | 0 <= k < |vs| ensures vs[k] in occ {
        assert k == 0;
      }
    }
    var cols := seq(|vs|, k requires 0 <= k < |vs| => occ[vs[k]][0]);
    assert cols[0] == "t0.subject";
    assert cols == ["t0.subject"];
  }

  /** `sparql_to_sql` on a query with a LIMIT: the SQL ends in ` LIMIT 10;`. */
  lemma LimitExample()
    ensures SqlOf("SELECT ?x WHERE { ?x p ?y } LIMIT 10")
         == Ok("SELECT " + "t0.subject" + " FROM " + "wikidata as t0" + " WHERE " + "t0.predicate=\"p\"" + " LIMIT " + "10" + ";")
  {
    LimitExampleParse();
    LimitExampleSql();
  }
}
