/**
 * The HTTP search server over the q-gram index: the response serialiser
 * (status line, Content-Length and Content-Type headers, blank line, body)
 * and the query handler, which normalises the query, searches with
 * delta = len/4 and renders the five best matches as HTML paragraphs.
 *
 * The socket loop is not modelled; a response is the byte sequence the
 * server would send.
 */
module SearchServer {
  import opened Seqs
  import opened Outcomes
  import opened Strings
  import opened QGramSearch
  import opened QGramIndex
  import opened PrefixEditDistance

  // ---------------------------------------------------------------------
  // handle_http
  // ---------------------------------------------------------------------

  /** The reason phrase bound for a status code; no other code binds one. */
  function ReasonPhrase(code: int): Option<string>
  {
    if code == 200 then Some("OK")
    else if code == 403 then Some("Forbidden")
    else if code == 404 then Some("Not Found")
    else if code == 418 then Some("I'm a teapot")
    else None
  }

  /** The header block: status line, Content-Length, Content-Type and the empty line. */
  function Header(code: int, phrase: string, length: int, contentType: string): string
  {
    "HTTP/1.1 " + IntToString(code) + " " + phrase + "\r\n"
    + "Content-Length: " + IntToString(length) + "\r\n"
    + "Content-Type: " + contentType + "\r\n"
    + "\r\n"
  }

  /** The body sent: the reason phrase for an error code, the content otherwise. */
  function ResponseBody(code: int, phrase: string, content: seq<byte>): seq<byte>
  {
    if code >= 400 then Encode(phrase) else content
  }

  /**
   * `handle_http(code, content, c_type)`: the encoded header followed by
   * the body. A code without a reason phrase leaves `code_msg` unbound.
   */
  function HandleHttp(code: int, content: seq<byte>, contentType: string): (r: Result<seq<byte>>)
    ensures r.Fail? ==> r.error == UnboundLocalError
  {
    match ReasonPhrase(code)
    case None => Fail(UnboundLocalError)
    case Some(phrase) =>
      var body := ResponseBody(code, phrase, content);
      Ok(Encode(Header(code, phrase, |body|, contentType)) + body)
  }

  /** A response is produced exactly for the four known codes. */
  lemma HandleHttpCodes(code: int, content: seq<byte>, contentType: string)
    ensures HandleHttp(code, content, contentType).Ok? <==> code in {200, 403, 404, 418}
  {
  }

  /** For an error code the body is the reason phrase, one byte per character, whatever the content. */
  lemma HandleHttpErrorBody(code: int, content: seq<byte>, other: seq<byte>, contentType: string)
    requires code >= 400 && ReasonPhrase(code).Some?
    ensures HandleHttp(code, content, contentType) == HandleHttp(code, other, contentType)
    ensures var phrase := ReasonPhrase(code).value;
      && |Encode(phrase)| == |phrase|
      && HandleHttp(code, content, contentType).value ==
         Encode(Header(code, phrase, |phrase|, contentType)) + Encode(phrase)
  {
    var phrase := ReasonPhrase(code).value;
    assert IsAscii(phrase);
    EncodeAscii(phrase);
  }

  // ---------------------------------------------------------------------
  // Reading a header back
  // ---------------------------------------------------------------------

  /** The fields a client reads from a header block. */
  datatype Head = Head(code: int, phrase: string, length: int, contentType: string)

  /** The text of a `\r`-terminated line after `name`, if the line starts with it. */
  function FieldOf(line: string, name: string): Option<string>
  {
    if |line| > |name| && line[..|name|] == name && Last(line) == '\r' then Some(line[|name|..|line| - 1])
    else None
  }

  /** The status line: `HTTP/1.1 `, the code up to the first space, then the reason phrase. */
  function StatusOf(line: string): Option<(int, string)>
  {
    match FieldOf(line, "HTTP/1.1 ")
    case None => None
    case Some(rest) =>
      var k := Leading(rest, NonSpace);
      if k == |rest| then None
      else match ParseInt(rest[..k])
        case Fail(_) => None
        case Ok(code) => Some((code, rest[k + 1..]))
  }

  /** A client's reading of a header block: four `\r\n`-terminated lines, the last one empty. */
  function ReadHeader(h: string): Option<Head>
  {
    var ls := Split(h, '\n');
    if |ls| != 5 || ls[3] != "\r" || ls[4] != "" then None
    else match (StatusOf(ls[0]), FieldOf(ls[1], "Content-Length: "), FieldOf(ls[2], "Content-Type: "))
      case (Some(status), Some(len), Some(ctype)) =>
        (match ParseInt(len)
         case Fail(_) => None
         case Ok(n) => Some(Head(status.0, status.1, n, ctype)))
      case _ => None
  }

  lemma FieldOfLine(name: string, x: string)
    ensures FieldOf(name + x + "\r", name) == Some(x)
  {
    var line := name + x + "\r";
    assert line[..|name|] == name && line[|name|..|line| - 1] == x;
  }

  lemma IntToStringNonSpace(n: int)
    ensures forall i :: 0 <= i < |IntToString(n)| ==> NonSpace(IntToString(n)[i])
  {
    var s := IntToString(n);
    if n >= 0 {
      assert AllDigits(s);
    } else {
      assert AllDigits(NatToString(-n));
      assert forall i :: 1 <= i < |s| ==> s[i] == NatToString(-n)[i - 1];
    }
  }

  lemma StatusOfLine(code: int, phrase: string)
    ensures StatusOf("HTTP/1.1 " + (IntToString(code) + " " + phrase) + "\r") == Some((code, phrase))
  {
    var c := IntToString(code);
    var rest := c + " " + phrase;
    FieldOfLine("HTTP/1.1 ", rest);
    IntToStringNonSpace(code);
    AppendAssoc(c, " ", phrase);
    LeadingPrefix(c, " " + phrase, NonSpace);
    assert rest[..|c|] == c && rest[|c| + 1..] == phrase;
    ParseIntToString(code);
  }

  lemma {:induction false} JoinFive(a: string, b: string, c: string, d: string, e: string, sep: char)
    ensures Join([a, b, c, d, e], sep) == a + [sep] + b + [sep] + c + [sep] + d + [sep] + e
  {
    var p1 := [a];
    var p2 := p1 + [b];
    var p3 := p2 + [c];
    var p4 := p3 + [d];
    var p5 := p4 + [e];
    assert p2[..1] == p1 && p3[..2] == p2 && p4[..3] == p3 && p5[..4] == p4;
    assert Join(p2, sep) == a + [sep] + b;
    assert Join(p3, sep) == Join(p2, sep) + [sep] + c;
    assert Join(p4, sep) == Join(p3, sep) + [sep] + d;
    assert Join(p5, sep) == Join(p4, sep) + [sep] + e;
    assert p5 == [a, b, c, d, e];
  }

  /** One more `\r\n`-terminated line: `x + y + z + "\r\n"` regrouped around the line feed. */
  lemma LineBreak(x: string, y: string, z: string, crlf: string, cr: string, lf: string)
    requires crlf == cr + lf
    ensures x + y + z + crlf == x + (y + z + cr) + lf
  {
    AppendAssoc(x + y + z, cr, lf);
    AppendAssoc(x, y + z, cr);
    AppendAssoc(x, y, z);
  }

  /** The header block with its literal pieces named. */
  lemma HeaderPieces(code: int, phrase: string, length: int, contentType: string,
                     status: string, sp: string, cl: string, ctn: string, crlf: string)
    requires status == "HTTP/1.1 " && sp == " " && cl == "Content-Length: " && ctn == "Content-Type: " && crlf == "\r\n"
    ensures Header(code, phrase, length, contentType) ==
            status + IntToString(code) + sp + phrase + crlf + cl + IntToString(length) + crlf + ctn + contentType + crlf + crlf
  {
  }

  /** Four `crlf`-terminated lines are the lines, each keeping `cr`, joined by `lf`. */
  lemma LinesJoined(status: string, c: string, sp: string, phrase: string, cl: string, n: string,
                    ctn: string, t: string, crlf: string, cr: string, lf: string)
    requires crlf == cr + lf && lf == ['\n']
    ensures status + c + sp + phrase + crlf + cl + n + crlf + ctn + t + crlf + crlf ==
            Join([status + (c + sp + phrase) + cr, cl + n + cr, ctn + t + cr, cr, []], '\n')
  {
    var l0, l1, l2 := status + (c + sp + phrase) + cr, cl + n + cr, ctn + t + cr;
    JoinFive(l0, l1, l2, cr, [], '\n');
    StatusLineBreak(status, c, sp, phrase, crlf, cr, lf);
    var h := l0 + lf;
    LineBreak(h, cl, n, crlf, cr, lf);
    h := h + l1 + lf;
    LineBreak(h, ctn, t, crlf, cr, lf);
    h := h + l2 + lf;
    AppendAssoc(h, cr, lf);
    assert h + cr + lf + [] == h + cr + lf;
  }

  lemma StatusLineBreak(status: string, c: string, sp: string, phrase: string, crlf: string, cr: string, lf: string)
    requires crlf == cr + lf
    ensures status + c + sp + phrase + crlf == status + (c + sp + phrase) + cr + lf
  {
    AppendAssoc(status + c, sp, phrase);
    LineBreak(status, c, sp + phrase, crlf, cr, lf);
    AppendAssoc(c, sp, phrase);
  }

  /** The header block is its four lines joined by `\n` (the `\r` stays on each line). */
  lemma HeaderLines(code: int, phrase: string, length: int, contentType: string)
    ensures Header(code, phrase, length, contentType) ==
            Join(["HTTP/1.1 " + (IntToString(code) + " " + phrase) + "\r",
                  "Content-Length: " + IntToString(length) + "\r",
                  "Content-Type: " + contentType + "\r", "\r", ""], '\n')
  {
    HeaderPieces(code, phrase, length, contentType, "HTTP/1.1 ", " ", "Content-Length: ", "Content-Type: ", "\r\n");
    LinesJoined("HTTP/1.1 ", IntToString(code), " ", phrase, "Content-Length: ", IntToString(length),
                "Content-Type: ", contentType, "\r\n", "\r", "\n");
  }

  /** The reading of a header block whose lines are known. */
  lemma ReadHeaderOf(h: string, l0: string, l1: string, l2: string,
                     code: int, phrase: string, length: int, contentType: string)
    requires Split(h, '\n') == [l0, l1, l2, "\r", ""]
    requires StatusOf(l0) == Some((code, phrase))
    requires FieldOf(l1, "Content-Length: ") == Some(IntToString(length))
    requires FieldOf(l2, "Content-Type: ") == Some(contentType)
    ensures ReadHeader(h) == Some(Head(code, phrase, length, contentType))
  {
    ParseIntToString(length);
  }

  /**
   * Reading the header back gives the code, the reason phrase, the
   * Content-Length and the content type it was written with, as long as
   * phrase and content type hold no line feed.
   */
  lemma ReadHeaderRoundTrip(code: int, phrase: string, length: int, contentType: string)
    requires '\n' !in phrase && '\n' !in contentType
    ensures ReadHeader(Header(code, phrase, length, contentType)) == Some(Head(code, phrase, length, contentType))
  {
    var l0 := "HTTP/1.1 " + (IntToString(code) + " " + phrase) + "\r";
    var l1 := "Content-Length: " + IntToString(length) + "\r";
    var l2 := "Content-Type: " + contentType + "\r";
    HeaderLines(code, phrase, length, contentType);
    LinesSplit(l0, l1, l2, code, phrase, length, contentType);
    StatusOfLine(code, phrase);
    FieldOfLine("Content-Length: ", IntToString(length));
    FieldOfLine("Content-Type: ", contentType);
    ReadHeaderOf(Header(code, phrase, length, contentType), l0, l1, l2, code, phrase, length, contentType);
  }

  lemma LinesSplit(l0: string, l1: string, l2: string, code: int, phrase: string, length: int, contentType: string)
    requires '\n' !in phrase && '\n' !in contentType
    requires l0 == "HTTP/1.1 " + (IntToString(code) + " " + phrase) + "\r"
    requires l1 == "Content-Length: " + IntToString(length) + "\r"
    requires l2 == "Content-Type: " + contentType + "\r"
    ensures Split(Join([l0, l1, l2, "\r", ""], '\n'), '\n') == [l0, l1, l2, "\r", ""]
  {
    var ls := [l0, l1, l2, "\r", ""];
    NoLineFeed(l0, "HTTP/1.1 ", IntToString(code) + " " + phrase, "\r");
    NoLineFeed(l1, "Content-Length: ", IntToString(length), "\r");
    NoLineFeed(l2, "Content-Type: ", contentType, "\r");
    assert forall k :: 0 <= k < |ls| ==> '\n' !in ls[k];
    JoinSplit(ls, '\n');
  }

  lemma NoLineFeed(l: string, a: string, b: string, c: string)
    requires l == a + b + c && '\n' !in a && '\n' !in b && '\n' !in c
    ensures '\n' !in l
  {
  }

  /**
   * A response is its encoded header followed by exactly the body, and
   * the header reads back with a Content-Length equal to the body's
   * length in bytes (for a content type without line feeds).
   */
  lemma HandleHttpFraming(code: int, content: seq<byte>, contentType: string)
    requires HandleHttp(code, content, contentType).Ok? && '\n' !in contentType
    ensures var phrase := ReasonPhrase(code).value;
      var body := ResponseBody(code, phrase, content);
      var h := Header(code, phrase, |body|, contentType);
      && HandleHttp(code, content, contentType).value == Encode(h) + body
      && ReadHeader(h) == Some(Head(code, phrase, |body|, contentType))
  {
    var phrase := ReasonPhrase(code).value;
    FramingOf(code, phrase, content, contentType);
  }

  lemma FramingOf(code: int, phrase: string, content: seq<byte>, contentType: string)
    requires ReasonPhrase(code) == Some(phrase) && '\n' !in contentType
    ensures var body := ResponseBody(code, phrase, content);
      var h := Header(code, phrase, |body|, contentType);
      && HandleHttp(code, content, contentType) == Ok(Encode(h) + body)
      && ReadHeader(h) == Some(Head(code, phrase, |body|, contentType))
  {
    assert '\n' !in phrase;
    ReadHeaderRoundTrip(code, phrase, |ResponseBody(code, phrase, content)|, contentType);
  }

  // ---------------------------------------------------------------------
  // handle_query
  // ---------------------------------------------------------------------

  /** `s[k]` on a Python list: negative indices count from the end; anything else is IndexError. */
  function PyAt<T>(s: seq<T>, k: int): (r: Result<T>)
    ensures r.Ok? <==> -|s| <= k < |s|
    ensures 0 <= k < |s| ==> r == Ok(s[k])
  {
    if 0 <= k < |s| then Ok(s[k])
    else if -|s| <= k < 0 then Ok(s[|s| + k])
    else Fail(IndexError)
  }

  /** `s[:-1]`: all but the last character. */
  function DropLastChar(s: string): (r: string)
    ensures |s| > 0 ==> s == r + [Last(s)]
    ensures |s| == 0 ==> r == []
  {
    if |s| == 0 then s else s[..|s| - 1]
  }

  /** `matches[:5]`. */
  function Top5(ms: seq<Match>): (r: seq<Match>)
    ensures |r| == if |ms| < 5 then |ms| else 5
    ensures r == ms[..|r|]
  {
    if |ms| <= 5 then ms else ms[..5]
  }

  /** The paragraph of one match: entity name, score, PED, the name matched and the description less its last character. */
  function Paragraph(m: Match, entities: seq<seq<string>>, names: seq<string>): Result<string>
  {
    match PyAt(entities, m.entity - 1)
    case Fail(e) => Fail(e)
    case Ok(fields) =>
      match (PyAt(fields, 0), PyAt(names, m.nameId - 1), PyAt(fields, 2))
      case (Ok(name), Ok(via), Ok(desc)) => Ok(ParagraphText(name, m.score, m.ped, via, desc))
      case _ => Fail(IndexError)
  }

  function ParagraphText(name: string, score: int, ped: nat, via: string, desc: string): string
  {
    "<p>" + "<b>" + name + "</b> score=" + IntToString(score) + ", ped=" + IntToString(ped)
    + ", via '" + via + "': " + DropLastChar(desc) + "</p>"
  }

  /** The paragraphs of the matches in order; the first failing match ends the rendering. */
  function Paragraphs(ms: seq<Match>, entities: seq<seq<string>>, names: seq<string>): Result<string>
  {
    if ms == [] then Ok("")
    else
      match Paragraphs(ms[..|ms| - 1], entities, names)
      case Fail(e) => Fail(e)
      case Ok(text) =>
        match Paragraph(Last(ms), entities, names)
        case Fail(e) => Fail(e)
        case Ok(p) => Ok(text + p)
  }

  /** The `delta` of `handle_query`: a quarter of the normalised query's length, rounded down. */
  function QueryDelta(norm: string): nat
  {
    |norm| / 4
  }

  /**
   * `handle_query(query)` on the index of these names: the five best
   * matches of the normalised query within PED len/4, rendered and encoded.
   */
  function HandleQuerySpec(query: string, q: nat, normNames: seq<string>, nameEnt: seq<int>,
                           entities: seq<seq<string>>, names: seq<string>): Result<seq<byte>>
    requires q >= 1 && |nameEnt| == |normNames| && EntsIn(nameEnt, |entities|)
  {
    var norm := Normalize(query);
    Response(FindMatchesSpec(norm, QueryDelta(norm), q, normNames, nameEnt, entities), entities, names)
  }

  /** The response to the matches found (or the error raised finding them): the five best, rendered and encoded. */
  function Response(found: Result<seq<Match>>, entities: seq<seq<string>>, names: seq<string>): Result<seq<byte>>
  {
    match found
    case Fail(e) => Fail(e)
    case Ok(ms) =>
      match Paragraphs(Top5(RankMatches(ms)), entities, names)
      case Fail(e) => Fail(e)
      case Ok(text) => Ok(Encode(text))
  }

  /** A match of an entity with three fields and a known name renders; one with fewer fields is IndexError. */
  lemma ParagraphFields(m: Match, entities: seq<seq<string>>, names: seq<string>)
    requires 1 <= m.entity <= |entities| && 1 <= m.nameId <= |names|
    ensures Paragraph(m, entities, names).Ok? <==> |entities[m.entity - 1]| >= 3
    ensures Paragraph(m, entities, names).Fail? ==> Paragraph(m, entities, names).error == IndexError
  {
  }

  /**
   * The indexing `render` needs: the entity's row, its fields 0 and 2 and
   * the matched name all exist (negative Python indices included).
   */
  predicate Renders(m: Match, entities: seq<seq<string>>, names: seq<string>)
  {
    && -|entities| <= m.entity - 1 < |entities|
    && -|names| <= m.nameId - 1 < |names|
    && 3 <= |entities[if m.entity - 1 < 0 then |entities| + m.entity - 1 else m.entity - 1]|
  }

  /** One match renders exactly when the indexing it needs succeeds. */
  lemma ParagraphRenders(m: Match, entities: seq<seq<string>>, names: seq<string>)
    ensures Paragraph(m, entities, names).Ok? <==> Renders(m, entities, names)
  {
  }

  /** Rendering succeeds exactly when every match renders. */
  lemma {:induction false} ParagraphsOk(ms: seq<Match>, entities: seq<seq<string>>, names: seq<string>)
    ensures Paragraphs(ms, entities, names).Ok? <==> forall i :: 0 <= i < |ms| ==> Renders(ms[i], entities, names)
  {
    if ms != [] {
      var init := ms[..|ms| - 1];
      ParagraphsOk(init, entities, names);
      ParagraphsOkStep(ms, entities, names);
      RendersSnoc(ms, init, entities, names);
    }
  }

  lemma RendersSnoc(ms: seq<Match>, init: seq<Match>, entities: seq<seq<string>>, names: seq<string>)
    requires ms != [] && init == ms[..|ms| - 1]
    ensures (forall i :: 0 <= i < |ms| ==> Renders(ms[i], entities, names))
      <==> (forall i :: 0 <= i < |init| ==> Renders(init[i], entities, names)) && Renders(Last(ms), entities, names)
  {
    assert forall i :: 0 <= i < |init| ==> init[i] == ms[i];
  }

  lemma ParagraphsOkStep(ms: seq<Match>, entities: seq<seq<string>>, names: seq<string>)
    requires ms != []
    ensures Paragraphs(ms, entities, names).Ok?
      <==> Paragraphs(ms[..|ms| - 1], entities, names).Ok? && Renders(Last(ms), entities, names)
  {
    ParagraphRenders(Last(ms), entities, names);
  }

  /** A rendering that fails raises IndexError. */
  lemma {:induction false} ParagraphsError(ms: seq<Match>, entities: seq<seq<string>>, names: seq<string>)
    ensures Paragraphs(ms, entities, names).Fail? ==> Paragraphs(ms, entities, names).error == IndexError
  {
    if ms != [] {
      ParagraphsError(ms[..|ms| - 1], entities, names);
      ParagraphFailIndex(Last(ms), entities, names);
    }
  }

  lemma ParagraphFailIndex(m: Match, entities: seq<seq<string>>, names: seq<string>)
    ensures Paragraph(m, entities, names).Fail? ==> Paragraph(m, entities, names).error == IndexError
  {
  }

  /**
   * The shown matches are the best of all matches in rank order: the
   * first five of the ranking, and none of the rest ranks before them.
   */
  lemma Top5Best(ms: seq<Match>)
    ensures var r := RankMatches(ms); var top := Top5(r);
      && |top| == (if |ms| < 5 then |ms| else 5)
      && multiset(ms) == multiset(top) + multiset(r[|top|..])
      && forall i, j :: 0 <= i < |top| && |top| <= j < |r| ==>
           top[i].ped < r[j].ped || (top[i].ped == r[j].ped && top[i].score >= r[j].score)
  {
    var r := RankMatches(ms);
    var top := Top5(r);
    assert r == top + r[|top|..];
    assert multiset(ms) == multiset(r) == multiset(top + r[|top|..]);
    forall i, j | 0 <= i < |top| && |top| <= j < |r|
      ensures top[i].ped < r[j].ped || (top[i].ped == r[j].ped && top[i].score >= r[j].score)
    {
      assert top[i] == r[i];
    }
  }

  /**
   * With q at most 3, a non-empty query's threshold |x| - q*delta is at
   * least 1, so the count filter cannot discard a name within delta.
   */
  lemma QueryDeltaThreshold(norm: string, q: nat)
    requires 1 <= q <= 3 && |norm| >= 1
    ensures Threshold(norm, q, QueryDelta(norm)) >= 1
  {
    var n, d := |norm|, QueryDelta(norm);
    assert n == 4 * d + n % 4;
    assert q * d <= 3 * d;
  }

  /**
   * Every entity with a name within PED len/4 of the normalised query is
   * found, at that PED or less, when the index uses q <= 3 (3 is the server's).
   */
  lemma HandleQueryComplete(query: string, q: nat, normNames: seq<string>, nameEnt: seq<int>,
                            entities: seq<seq<string>>, n: int)
    requires 1 <= q <= 3 && |nameEnt| == |normNames| && EntsIn(nameEnt, |entities|)
    requires |Normalize(query)| >= 1
    requires FindMatchesSpec(Normalize(query), QueryDelta(Normalize(query)), q, normNames, nameEnt, entities).Ok?
    requires 1 <= n <= |normNames| && Ped(Normalize(query), normNames[n - 1]) <= QueryDelta(Normalize(query))
    ensures var ms := FindMatchesSpec(Normalize(query), QueryDelta(Normalize(query)), q, normNames, nameEnt, entities).value;
      exists i :: 0 <= i < |ms| && ms[i].entity == nameEnt[n - 1] && ms[i].ped <= Ped(Normalize(query), normNames[n - 1])
  {
    var norm := Normalize(query);
    QueryDeltaThreshold(norm, q);
    PrefixMergedIsMerge(norm, q, normNames);
    FindMatchesComplete(PrefixMerged(norm, q, normNames), norm, QueryDelta(norm), q, normNames, nameEnt, entities, n);
  }

  /** The loop of `handle_query`: `res_top += "<p>...</p>"` for each shown match. */
  method RenderTop(top: seq<Match>, entities: seq<seq<string>>, names: seq<string>) returns (r: Result<string>)
    ensures r == Paragraphs(top, entities, names)
  {
    var resTop := "";
    for i := 0 to |top|
      invariant Paragraphs(top[..i], entities, names) == Ok(resTop)
    {
      assert top[..i + 1][..i] == top[..i];
      var p := Paragraph(top[i], entities, names);
      if p.Fail? {
        ParagraphsFailFrom(top, i + 1, entities, names);
        return Fail(p.error);
      }
      resTop := resTop + p.value;
    }
    assert top[..|top|] == top;
    return Ok(resTop);
  }

  /** The tail of `handle_query`: rank, keep five, render them in order and encode the page. */
  method Respond(found: Result<seq<Match>>, entities: seq<seq<string>>, names: seq<string>) returns (r: Result<seq<byte>>)
    ensures r == Response(found, entities, names)
  {
    if found.Fail? {
      return Fail(found.error);
    }
    var resTop := RenderTop(Top5(RankMatches(found.value)), entities, names);
    if resTop.Fail? {
      return Fail(resTop.error);
    }
    r := Ok(Encode(resTop.value));
  }

  /** Once a prefix fails to render, the whole sequence fails the same way. */
  lemma {:induction false} ParagraphsFailFrom(ms: seq<Match>, k: nat, entities: seq<seq<string>>, names: seq<string>)
    requires k <= |ms| && Paragraphs(ms[..k], entities, names).Fail?
    ensures Paragraphs(ms, entities, names) == Paragraphs(ms[..k], entities, names)
    decreases |ms| - k
  {
    if k < |ms| {
      assert ms[..k + 1][..k] == ms[..k];
      ParagraphsFailFrom(ms, k + 1, entities, names);
    } else {
      assert ms[..k] == ms;
    }
  }

  // ---------------------------------------------------------------------
  // The server
  // ---------------------------------------------------------------------

  class SearchServer {
    const port: int
    const maxNumByte: int
    var qg: QGramIndex?

    predicate Valid()
      reads this, if qg != null then {qg} else {}
    {
      qg != null && qg.Valid()
    }

    constructor (port: int)
      ensures this.port == port && maxNumByte == 1024 && qg == null
    {
      this.port := port;
      maxNumByte := 1024;
      qg := null;
    }

    /** `qgram_build_from_file`: a fresh index built from the file's lines. */
    method QGramBuildFromLines(lines: seq<string>, q: nat, useSyns: bool) returns (error: Option<Error>)
      requires q >= 1
      modifies this`qg
      ensures Valid() && fresh(qg) && qg.q == q && qg.useSyns == useSyns
      ensures Built(Body(lines), useSyns, qg.entities, qg.nameEnt, qg.names, qg.normNames, error)
    {
      var index := new QGramIndex(q, useSyns);
      error := index.BuildFromLines(lines);
      qg := index;
    }

    /**
     * `handle_query(query)`: normalise, find the matches within len/4,
     * then append the paragraphs of the five best, in rank order.
     */
    method HandleQuery(query: string) returns (r: Result<seq<byte>>)
      requires Valid()
      modifies qg`merges, qg`pedCalcs
      ensures Valid()
      ensures r == HandleQuerySpec(query, qg.q, qg.normNames, qg.nameEnt, qg.entities, qg.names)
      ensures var norm := Normalize(query);
        qg.merges == Some((|PrefixLists(norm, qg.q, qg.normNames)|, |Flatten(PrefixLists(norm, qg.q, qg.normNames))|))
      ensures var norm := Normalize(query);
        qg.pedCalcs == Some((PedCalls(PrefixMerged(norm, qg.q, qg.normNames), Threshold(norm, qg.q, QueryDelta(norm))),
                             |PrefixMerged(norm, qg.q, qg.normNames)|))
    {
      var ents, names := qg.entities, qg.names;
      var norm := Normalize(query);
      var res := qg.FindMatches(norm, |norm| / 4);
      r := Respond(res, ents, names);
    }
  }
}
