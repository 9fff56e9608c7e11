/**
 * The parts of Python's `str` (and of the two regular expressions the
 * exercises use for tokenising) that the search-engine code relies on.
 * Character classes are the ASCII ones; whitespace is Python's full set.
 */
module Strings {
  import opened Seqs
  import opened Outcomes

  predicate IsAsciiUpper(c: char) { 'A' <= c <= 'Z' }
  predicate IsAsciiLower(c: char) { 'a' <= c <= 'z' }
  predicate IsAsciiLetter(c: char) { IsAsciiUpper(c) || IsAsciiLower(c) }
  predicate IsDigit(c: char) { '0' <= c <= '9' }

  /** `str.isalnum` on ASCII characters. */
  predicate IsAlnum(c: char) { IsAsciiLetter(c) || IsDigit(c) }

  /** The class `\w` of regular expressions, on ASCII characters. */
  predicate IsWordChar(c: char) { IsAlnum(c) || c == '_' }

  /** `str.isspace`, which is also the class `\s` of regular expressions. */
  predicate IsSpace(c: char) {
    ('\t' <= c <= '\r') || ('\U{1C}' <= c <= ' ') || c == '\U{85}' || c == '\U{A0}'
    || c == '\U{1680}' || ('\U{2000}' <= c <= '\U{200A}') || c == '\U{2028}' || c == '\U{2029}'
    || c == '\U{202F}' || c == '\U{205F}' || c == '\U{3000}'
  }

  /** `str.lower` on one character. */
  function Lower(c: char): (r: char)
    ensures !IsAsciiUpper(r)
    ensures IsAsciiLetter(r) <==> IsAsciiLetter(c)
    ensures IsAlnum(r) <==> IsAlnum(c)
    ensures IsWordChar(r) <==> IsWordChar(c)
    ensures IsSpace(r) <==> IsSpace(c)
    ensures !IsAsciiUpper(c) ==> r == c
  {
    if IsAsciiUpper(c) then (c as int - 'A' as int + 'a' as int) as char else c
  }

  function LowerStr(s: string): string
  {
    seq(|s|, i requires 0 <= i < |s| => Lower(s[i]))
  }

  lemma LowerStrIdempotent(s: string)
    ensures LowerStr(LowerStr(s)) == LowerStr(s)
  {
  }

  lemma LowerStrAppend(a: string, b: string)
    ensures LowerStr(a + b) == LowerStr(a) + LowerStr(b)
  {
  }

  /** Joins `parts` with `sep` between neighbours (`sep.join(parts)`). */
  function Join(parts: seq<string>, sep: char): string
    requires |parts| >= 1
  {
    if |parts| == 1 then parts[0]
    else Join(parts[..|parts| - 1], sep) + [sep] + Last(parts)
  }

  /**
   * `s.split(sep)` for a one-character separator: empty pieces are kept,
   * so there is always one piece more than there are separators.
   */
  function Split(s: string, sep: char): (parts: seq<string>)
    ensures |parts| == Count(sep, s) + 1
    ensures forall k :: 0 <= k < |parts| ==> sep !in parts[k]
  {
    if s == [] then [[]]
    else
      var r := Split(s[..|s| - 1], sep);
      if Last(s) == sep then r + [[]]
      else r[..|r| - 1] + [Last(r) + [Last(s)]]
  }

  lemma JoinExtendLast(parts: seq<string>, sep: char, t: string)
    requires |parts| >= 1
    ensures Join(parts[..|parts| - 1] + [Last(parts) + t], sep) == Join(parts, sep) + t
  {
    var ps := parts[..|parts| - 1] + [Last(parts) + t];
    if |parts| > 1 {
      assert ps[..|ps| - 1] == parts[..|parts| - 1];
    }
  }

  /** Joining the pieces of a split gives back the string. */
  lemma {:induction false} SplitJoin(s: string, sep: char)
    ensures Join(Split(s, sep), sep) == s
  {
    if s != [] {
      var init := s[..|s| - 1];
      var r := Split(init, sep);
      SplitJoin(init, sep);
      assert s == init + [Last(s)];
      if Last(s) == sep {
        assert (r + [[]])[..|r|] == r;
      } else {
        JoinExtendLast(r, sep, [Last(s)]);
      }
    }
  }

  lemma {:induction false} SplitAppendPiece(a: string, t: string, sep: char)
    requires sep !in t
    ensures var r := Split(a, sep);
      Split(a + t, sep) == r[..|r| - 1] + [Last(r) + t]
    decreases |t|
  {
    var r := Split(a, sep);
    if t == [] {
      assert a + t == a;
      assert Last(r) + t == Last(r);
      assert r == r[..|r| - 1] + [Last(r)];
    } else {
      var t' := t[..|t| - 1];
      SplitAppendPiece(a, t', sep);
      assert (a + t)[..|a + t| - 1] == a + t';
      assert Last(r) + t' + [Last(t)] == Last(r) + t;
    }
  }

  lemma SplitSeparatorEnd(a: string, sep: char)
    ensures Split(a + [sep], sep) == Split(a, sep) + [[]]
  {
    assert (a + [sep])[..|a|] == a;
  }

  /** Splitting a join of separator-free pieces gives back the pieces. */
  lemma {:induction false} JoinSplit(parts: seq<string>, sep: char)
    requires |parts| >= 1
    requires forall k :: 0 <= k < |parts| ==> sep !in parts[k]
    ensures Split(Join(parts, sep), sep) == parts
  {
    if |parts| == 1 {
      SplitAppendPiece([], parts[0], sep);
      assert [] + parts[0] == parts[0];
    } else {
      JoinSplit(parts[..|parts| - 1], sep);
      JoinSplitStep(parts, sep);
    }
  }

  lemma JoinSplitStep(parts: seq<string>, sep: char)
    requires |parts| >= 2 && sep !in Last(parts)
    requires Split(Join(parts[..|parts| - 1], sep), sep) == parts[..|parts| - 1]
    ensures Split(Join(parts, sep), sep) == parts
  {
    var ps, t := parts[..|parts| - 1], Last(parts);
    var a := Join(ps, sep) + [sep];
    assert Join(parts, sep) == a + t;
    SplitSeparatorEnd(Join(ps, sep), sep);
    SplitAppendPiece(a, t, sep);
    var r := ps + [[]];
    assert r[..|r| - 1] == ps;
    assert Last(r) + t == t;
    assert ps + [t] == parts;
  }

  predicate NonSpace(c: char) { !IsSpace(c) }

  /** `str.split()`: the maximal runs of non-whitespace characters. */
  function SplitWhitespace(s: string): seq<string>
  {
    Runs(s, NonSpace)
  }

  function StripLeft(s: string): (r: string)
    ensures |r| <= |s| && r == s[|s| - |r|..]
    ensures forall k :: 0 <= k < |s| - |r| ==> IsSpace(s[k])
    ensures r == [] || !IsSpace(r[0])
  {
    if s != [] && IsSpace(s[0]) then StripLeft(s[1..]) else s
  }

  function StripRight(s: string): (r: string)
    ensures |r| <= |s| && r == s[..|r|]
    ensures forall k :: |r| <= k < |s| ==> IsSpace(s[k])
    ensures r == [] || !IsSpace(Last(r))
  {
    if s != [] && IsSpace(Last(s)) then StripRight(s[..|s| - 1]) else s
  }

  /** `str.strip()`: whitespace removed from both ends. */
  function Strip(s: string): string
  {
    StripRight(StripLeft(s))
  }

  lemma StripUnchanged(s: string)
    requires s == [] || (!IsSpace(s[0]) && !IsSpace(Last(s)))
    ensures Strip(s) == s
  {
  }

  /** Stripping whitespace keeps the maximal runs of a class without whitespace. */
  lemma {:induction false} RunsStripLeft(s: string, p: char -> bool)
    requires forall c :: IsSpace(c) ==> !p(c)
    ensures Runs(StripLeft(s), p) == Runs(s, p)
    decreases |s|
  {
    if s != [] && IsSpace(s[0]) {
      RunsStripLeft(s[1..], p);
      RunsSeparated([], s[0], s[1..], p);
      assert [] + [s[0]] + s[1..] == s;
    }
  }

  lemma {:induction false} RunsStripRight(s: string, p: char -> bool)
    requires forall c :: IsSpace(c) ==> !p(c)
    ensures Runs(StripRight(s), p) == Runs(s, p)
    decreases |s|
  {
    if s != [] && IsSpace(Last(s)) {
      RunsStripRight(s[..|s| - 1], p);
    }
  }

  /** A non-empty word of lower-case ASCII letters. */
  predicate IsLowerWord(w: string)
  {
    |w| > 0 && forall i :: 0 <= i < |w| ==> IsAsciiLower(w[i])
  }

  /**
   * The words of a line for the inverted indexes: the pieces of
   * `re.split("[^A-Za-z]+", line)`, each lower-cased, the empty ones
   * dropped. The non-empty pieces are the maximal runs of ASCII letters.
   */
  function LetterWords(line: string): (words: seq<string>)
    ensures forall k :: 0 <= k < |words| ==> IsLowerWord(words[k])
  {
    RunsAreRuns(line, IsAsciiLetter);
    var runs := Runs(line, IsAsciiLetter);
    seq(|runs|, k requires 0 <= k < |runs| => LowerStr(runs[k]))
  }

  /** The words of a line do not change when it is stripped first (`line.strip()`). */
  lemma LetterWordsStrip(line: string)
    ensures LetterWords(Strip(line)) == LetterWords(line)
  {
    RunsStripLeft(line, IsAsciiLetter);
    RunsStripRight(StripLeft(line), IsAsciiLetter);
  }

  /** `sep.join(parts)` for a separator string; the empty list joins to "". */
  function JoinWith(parts: seq<string>, sep: string): (r: string)
  {
    if parts == [] then []
    else if |parts| == 1 then parts[0]
    else JoinWith(parts[..|parts| - 1], sep) + sep + Last(parts)
  }

  /** `sub` occurs in `s` starting at index `k`. */
  predicate OccursAt(s: string, sub: string, k: int)
  {
    0 <= k && k + |sub| <= |s| && s[k..k + |sub|] == sub
  }

  /** The start position of `s.find(sub, start)` after Python's slice normalisation. */
  function SearchStart(start: int, n: nat): int
  {
    if start >= 0 then start else if start + n >= 0 then start + n else 0
  }

  function FindFrom(s: string, sub: string, i: nat): (r: int)
    requires i <= |s|
    ensures r == -1 || (i <= r && OccursAt(s, sub, r))
    ensures forall k :: i <= k && (r == -1 || k < r) ==> !OccursAt(s, sub, k)
    decreases |s| - i
  {
    if i + |sub| > |s| then -1
    else if s[i..i + |sub|] == sub then i
    else if i == |s| then -1
    else FindFrom(s, sub, i + 1)
  }

  /** `s.find(sub, start)`: the lowest index at or after `start` where `sub` occurs, or -1. */
  function Find(s: string, sub: string, start: int): (r: int)
    ensures var st := SearchStart(start, |s|);
      r == -1 || (st <= r && OccursAt(s, sub, r))
    ensures var st := SearchStart(start, |s|);
      forall k :: st <= k && (r == -1 || k < r) ==> !OccursAt(s, sub, k)
  {
    var st := SearchStart(start, |s|);
    if st > |s| then -1 else FindFrom(s, sub, st)
  }

  function RFindDown(s: string, sub: string, lo: nat, hi: int): (r: int)
    ensures r == -1 || (lo <= r <= hi && OccursAt(s, sub, r))
    ensures forall k :: lo <= k <= hi && r < k ==> !OccursAt(s, sub, k)
    decreases hi - lo + 1
  {
    if hi < lo then -1
    else if OccursAt(s, sub, hi) then hi
    else RFindDown(s, sub, lo, hi - 1)
  }

  /** `s.rfind(sub, start)`: the highest index at or after `start` where `sub` occurs, or -1. */
  function RFind(s: string, sub: string, start: int): (r: int)
    ensures var st := SearchStart(start, |s|);
      r == -1 || (st <= r && OccursAt(s, sub, r))
    ensures var st := SearchStart(start, |s|);
      forall k :: st <= k && r < k ==> !OccursAt(s, sub, k)
  {
    var st := SearchStart(start, |s|);
    if st > |s| then -1 else RFindDown(s, sub, st, |s| - |sub|)
  }

  /** A slice bound after Python's normalisation: negative counts from the end, then clamped. */
  function SliceBound(i: int, n: nat): (b: nat)
    ensures b <= n
    ensures 0 <= i <= n ==> b == i
  {
    if i < 0 then (if i + n < 0 then 0 else i + n) else if i > n then n else i
  }

  /** `s[a:b]`. */
  function Slice(s: string, a: int, b: int): (r: string)
    ensures var lo, hi := SliceBound(a, |s|), SliceBound(b, |s|);
      if lo < hi then r == s[lo..hi] else r == []
  {
    var lo, hi := SliceBound(a, |s|), SliceBound(b, |s|);
    if lo < hi then s[lo..hi] else []
  }

  function DigitChar(d: nat): (c: char)
    requires d < 10
    ensures IsDigit(c)
  {
    ('0' as int + d) as char
  }

  function DigitValue(c: char): nat
    requires IsDigit(c)
  {
    c as int - '0' as int
  }

  predicate AllDigits(s: string)
  {
    forall i :: 0 <= i < |s| ==> IsDigit(s[i])
  }

  /** `str(n)` for a natural number: its decimal digits, most significant first. */
  function NatToString(n: nat): (r: string)
    ensures |r| > 0 && AllDigits(r)
    decreases n
  {
    if n < 10 then [DigitChar(n)] else NatToString(n / 10) + [DigitChar(n % 10)]
  }

  /** `str(n)` and `"%d" % n`. */
  function IntToString(n: int): (r: string)
    ensures |r| > 0 && !IsSpace(r[0]) && IsDigit(Last(r))
  {
    if n < 0 then "-" + NatToString(-n) else NatToString(n)
  }

  /** The value of a string of decimal digits. */
  function DigitsValue(s: string): nat
    requires AllDigits(s)
  {
    if s == [] then 0 else DigitsValue(s[..|s| - 1]) * 10 + DigitValue(Last(s))
  }

  lemma {:induction false} DigitsValueOfNat(n: nat)
    ensures DigitsValue(NatToString(n)) == n
    decreases n
  {
    if n >= 10 {
      DigitsValueOfNat(n / 10);
      var r := NatToString(n);
      assert r[..|r| - 1] == NatToString(n / 10);
    }
  }

  /**
   * `int(s)` for a string: surrounding whitespace, an optional sign and at
   * least one decimal digit; anything else raises `ValueError`.
   */
  function ParseInt(s: string): (r: Result<int>)
    ensures r.Ok? ==> |Strip(s)| > 0
  {
    var t := Strip(s);
    if |t| > 0 && (t[0] == '-' || t[0] == '+') then
      var d := t[1..];
      if |d| > 0 && AllDigits(d) then
        var v: int := DigitsValue(d);
        Ok(if t[0] == '-' then -v else v)
      else Fail(ValueError)
    else if |t| > 0 && AllDigits(t) then Ok(DigitsValue(t))
    else Fail(ValueError)
  }

  /** `int(str(n)) == n`. */
  lemma ParseIntToString(n: int)
    ensures ParseInt(IntToString(n)) == Ok(n)
  {
    var s := IntToString(n);
    StripUnchanged(s);
    if n < 0 {
      ParseNegative(-n);
      assert -(-n) == n;
    } else {
      DigitsValueOfNat(n);
      assert s == NatToString(n) && s[0] != '-' && s[0] != '+';
    }
  }

  lemma ParseNegative(m: int)
    requires m > 0
    ensures ParseInt(IntToString(-m)) == Ok(-m)
  {
    var s, d := IntToString(-m), NatToString(m);
    StripUnchanged(s);
    assert s == "-" + d && s[0] == '-';
    assert s[1..] == d;
    DigitsValueOfNat(m);
  }

  /** A byte, the unit of the server's encoded output. */
  newtype byte = x: int | 0 <= x < 256

  /** The UTF-8 encoding of one character. */
  function EncodeChar(c: char): (r: seq<byte>)
    ensures 1 <= |r| <= 4
    ensures |r| == 1 <==> c as int < 0x80
    ensures |r| == 1 ==> r[0] as int == c as int
  {
    var n := c as int;
    if n < 0x80 then [n as byte]
    else if n < 0x800 then [(0xC0 + n / 0x40) as byte, (0x80 + n % 0x40) as byte]
    else if n < 0x1_0000 then
      [(0xE0 + n / 0x1000) as byte, (0x80 + n / 0x40 % 0x40) as byte, (0x80 + n % 0x40) as byte]
    else
      [(0xF0 + n / 0x4_0000) as byte, (0x80 + n / 0x1000 % 0x40) as byte,
       (0x80 + n / 0x40 % 0x40) as byte, (0x80 + n % 0x40) as byte]
  }

  /** `s.encode("utf-8")`. */
  function Encode(s: string): seq<byte>
  {
    if s == [] then [] else Encode(s[..|s| - 1]) + EncodeChar(Last(s))
  }

  predicate IsAscii(s: string)
  {
    forall i :: 0 <= i < |s| ==> s[i] as int < 0x80
  }

  lemma {:induction false} EncodeAppend(a: string, b: string)
    ensures Encode(a + b) == Encode(a) + Encode(b)
    decreases |b|
  {
    if b != [] {
      DropLastAppend(a, b);
      EncodeAppend(a, b[..|b| - 1]);
    } else {
      assert a + b == a;
    }
  }

  /** ASCII text encodes to one byte per character, each equal to its code. */
  lemma {:induction false} EncodeAscii(s: string)
    requires IsAscii(s)
    ensures |Encode(s)| == |s|
    ensures forall i :: 0 <= i < |s| ==> Encode(s)[i] as int == s[i] as int
  {
    if s != [] {
      EncodeAscii(s[..|s| - 1]);
    }
  }

  /** Encoding never shortens a string: `len(s.encode()) >= len(s)`. */
  lemma {:induction false} EncodeLength(s: string)
    ensures |s| <= |Encode(s)| <= 4 * |s|
  {
    if s != [] {
      EncodeLength(s[..|s| - 1]);
    }
  }
}
