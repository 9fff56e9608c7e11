/**
 * The inverted lists of record ids built by the boolean index and the
 * ranked index: one record per line, numbered from 1, and for every word
 * the ids of the records holding it, each id at most once.
 */
module RecordLists {
  import opened Seqs
  import opened Strings

  /** Word -> record ids. */
  type IdLists = map<string, seq<int>>

  /** The list of `w`, or the empty list when it has none yet. */
  function GetIds(m: IdLists, w: string): seq<int>
  {
    if w in m then m[w] else []
  }

  /** Ids in increasing order, so each at most once. */
  predicate Increasing(l: seq<int>)
  {
    forall i, j :: 0 <= i < j < |l| ==> l[i] < l[j]
  }

  /** Every word that has a list has at least one id on it (so `[-1]` is defined). */
  predicate NonEmptyLists<V>(m: map<string, seq<V>>)
  {
    forall w :: w in m ==> m[w] != []
  }

  /** Every list of `m` ends before record `id`. */
  predicate IdsBelow(m: IdLists, id: int)
  {
    forall w :: w in m && m[w] != [] ==> Last(m[w]) < id
  }

  /** One occurrence of `w` in record `id`: `id` is appended unless it already ends the list. */
  function AddId(m: IdLists, w: string, id: int): IdLists
  {
    var l := GetIds(m, w);
    if |l| > 0 && Last(l) == id then m else m[w := l + [id]]
  }

  /** All the words of record `id`, in order. */
  function AddIds(m: IdLists, words: seq<string>, id: int): IdLists
  {
    if words == [] then m else AddId(AddIds(m, words[..|words| - 1], id), Last(words), id)
  }

  /** The words of `docs[0]`, `docs[1]`, ... as records 1, 2, ... */
  function AddDocs(m: IdLists, docs: seq<seq<string>>): IdLists
  {
    if docs == [] then m else AddIds(AddDocs(m, docs[..|docs| - 1]), Last(docs), |docs|)
  }

  /** The words of each line. */
  function LineWords(lines: seq<string>): (docs: seq<seq<string>>)
    ensures |docs| == |lines|
    ensures forall i :: 0 <= i < |lines| ==> docs[i] == LetterWords(lines[i])
  {
    seq(|lines|, i requires 0 <= i < |lines| => LetterWords(lines[i]))
  }

  lemma LineWordsStep(lines: seq<string>, n: nat)
    requires n < |lines|
    ensures LineWords(lines[..n + 1]) == LineWords(lines[..n]) + [LetterWords(lines[n])]
  {
  }

  /** Reference definition of a list: the ids of the records holding `w`, in order. */
  function RecordsWith(w: string, docs: seq<seq<string>>): (l: seq<int>)
    ensures Increasing(l)
    ensures forall i :: 0 <= i < |l| ==> 1 <= l[i] <= |docs|
  {
    if docs == [] then []
    else RecordsWith(w, docs[..|docs| - 1]) + if w in Last(docs) then [|docs|] else []
  }

  /** An id is on the list of `w` exactly when its record holds `w`. */
  lemma {:induction false} RecordsWithMember(w: string, docs: seq<seq<string>>, x: int)
    ensures x in RecordsWith(w, docs) <==> 1 <= x <= |docs| && w in docs[x - 1]
  {
    if docs != [] {
      var init := docs[..|docs| - 1];
      RecordsWithMember(w, init, x);
      if 1 <= x < |docs| {
        assert docs[x - 1] == init[x - 1];
      }
    }
  }

  /** One occurrence of `h` in record `id` seen from the list of `g`. */
  lemma AddIdGet(m: IdLists, h: string, id: int, g: string, base: seq<int>, seen: bool)
    requires base == [] || Last(base) < id
    requires GetIds(m, g) == base + if seen then [id] else []
    ensures var seen' := seen || h == g;
      GetIds(AddId(m, h, id), g) == base + if seen' then [id] else []
    ensures g in AddId(m, h, id) <==> g in m || g == h
  {
  }

  /** The words of record `id` append `id` once to the list of each word they contain. */
  lemma {:induction false} AddIdsGet(m: IdLists, words: seq<string>, id: int, g: string)
    requires IdsBelow(m, id)
    ensures GetIds(AddIds(m, words, id), g) == GetIds(m, g) + if g in words then [id] else []
    ensures g in AddIds(m, words, id) <==> g in m || g in words
  {
    if words != [] {
      var init := words[..|words| - 1];
      AddIdsGet(m, init, id, g);
      assert g in words <==> g in init || g == Last(words);
      AddIdGet(AddIds(m, init, id), Last(words), id, g, GetIds(m, g), g in init);
    }
  }

  /** Adding words keeps every list non-empty. */
  lemma {:induction false} AddIdsNonEmpty(m: IdLists, words: seq<string>, id: int)
    requires NonEmptyLists(m)
    ensures NonEmptyLists(AddIds(m, words, id))
  {
    if words != [] {
      AddIdsNonEmpty(m, words[..|words| - 1], id);
    }
  }

  /** Built from nothing, the lists are exactly the reference lists. */
  lemma {:induction false} AddDocsSpec(docs: seq<seq<string>>)
    ensures forall g :: GetIds(AddDocs(map[], docs), g) == RecordsWith(g, docs)
    ensures forall g :: g in AddDocs(map[], docs) <==> RecordsWith(g, docs) != []
  {
    if docs != [] {
      var init := docs[..|docs| - 1];
      AddDocsSpec(init);
      var m := AddDocs(map[], init);
      assert IdsBelow(m, |docs|) by {
        forall w | w in m && m[w] != []
          ensures Last(m[w]) < |docs|
        {
          assert GetIds(m, w) == RecordsWith(w, init);
        }
      }
      forall g
        ensures GetIds(AddDocs(map[], docs), g) == RecordsWith(g, docs)
        ensures g in AddDocs(map[], docs) <==> RecordsWith(g, docs) != []
      {
        AddIdsGet(m, Last(docs), |docs|, g);
      }
    }
  }

  /**
   * What `read_from_file` promises for a fresh index: every list is
   * increasing (each record id at most once), and it holds an id exactly
   * when that record's line contains the word.
   */
  lemma ListsOfLines(lines: seq<string>, w: string, x: int)
    ensures var m := AddDocs(map[], LineWords(lines));
      Increasing(GetIds(m, w))
      && (x in GetIds(m, w) <==> 1 <= x <= |lines| && w in LetterWords(lines[x - 1]))
      && (w in m <==> exists i :: 0 <= i < |lines| && w in LetterWords(lines[i]))
  {
    var docs := LineWords(lines);
    AddDocsSpec(docs);
    RecordsWithMember(w, docs, x);
    if exists i :: 0 <= i < |lines| && w in LetterWords(lines[i]) {
      var i :| 0 <= i < |lines| && w in LetterWords(lines[i]);
      RecordsWithMember(w, docs, i + 1);
    } else if w in AddDocs(map[], docs) {
      var l := RecordsWith(w, docs);
      RecordsWithMember(w, docs, l[0]);
    }
  }

  /** The records of the lines: each stripped line split at its tabs. */
  function Records(lines: seq<string>): (rs: seq<seq<string>>)
    ensures |rs| == |lines|
  {
    if lines == [] then [] else Records(lines[..|lines| - 1]) + [Split(Strip(Last(lines)), '\t')]
  }

  lemma {:induction false} RecordsAt(lines: seq<string>, i: nat)
    requires i < |lines|
    ensures Records(lines)[i] == Split(Strip(lines[i]), '\t')
  {
    var init := lines[..|lines| - 1];
    var r, x := Records(init), Split(Strip(Last(lines)), '\t');
    assert Records(lines) == r + [x];
    if i < |lines| - 1 {
      RecordsAt(init, i);
      assert init[i] == lines[i];
      assert (r + [x])[i] == r[i];
    }
  }

  /** A record gives back its stripped line when its fields are joined with tabs. */
  lemma RecordsRebuild(lines: seq<string>, i: nat)
    requires i < |lines|
    ensures |Records(lines)[i]| >= 1 && Join(Records(lines)[i], '\t') == Strip(lines[i])
  {
    RecordsAt(lines, i);
    SplitJoin(Strip(lines[i]), '\t');
  }

  lemma RecordsStep(lines: seq<string>, n: nat)
    requires n < |lines|
    ensures Records(lines[..n + 1]) == Records(lines[..n]) + [Split(Strip(lines[n]), '\t')]
  {
    var pre := lines[..n + 1];
    assert |pre| == n + 1 && pre[..n] == lines[..n] && Last(pre) == lines[n];
    assert Records(pre) == Records(pre[..|pre| - 1]) + [Split(Strip(Last(pre)), '\t')];
  }
}
