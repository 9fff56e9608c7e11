# Search-engine exercises, modelled in Dafny

This project models the core of a set of information-retrieval exercises
written in Python: inverted indexes with Boolean intersection and
scored union, BM25 index construction and the structure of its
vector-space query processing, the evaluation measures P@k and average
precision, fuzzy prefix search with a q-gram index (a draft and a mature
version) and the HTTP search server in front of it, a Naive Bayes text
classifier's data reading, prediction and evaluation, and a translator
from simple SPARQL queries to SQL over a single triple table.

Each source file has its own module:

| module | file | source |
|---|---|---|
| `BooleanIndex` | boolean_index.dfy | sheet-01/inverted_index.py |
| `RecordLists`, `ScoredIndex` | record_lists.dfy, scored_index.dfy | sheet-02/inverted_index.py |
| `Evaluation` | evaluation.dfy | sheet-02/evaluate.py |
| `QGramDraft` | qgram_draft.dfy | sheet-05/qgram_index.py |
| `QGramIndex`, `QGramSearch` | qgram_index.dfy, qgram_search.dfy | sheet-06/qgram_index.py |
| `SearchServer` | search_server.dfy | sheet-06/search_server.py |
| `Bm25Index` | bm25_index.dfy | sheet-08/inverted_index.py |
| `NaiveBayes`, `NaiveBayesClassifier` | naive_bayes.dfy, naive_bayes_classifier.dfy | sheet-10/naive_bayes.py |
| `Sparql` | sparql.dfy | sheet-12/sparql_to_sql.py |

Shared modules hold what several exercises rely on. `Strings` covers
Python's `str` operations and the two tokenising regular expressions.
`Sorting` is a stable `sorted`. `Postings` holds posting lists, the
occurrence-count index and the sort-and-fold merge. `PrefixEditDistance`
is the reference definition of the prefix edit distance.
`QGramFilter` proves that the q-gram count filter loses no match.
`Seqs` and `Outcomes` hold generic sequence helpers and the result type
that stands for Python's exceptions.

Classes whose methods update their fields in place are Dafny classes
(`InvertedIndex` in several modules, `QGramIndex`, `QGramDraft`,
`SearchServer`). Their methods are proved against specification
functions, and the lemmas beside those functions state what the source
promises. Files are sequences of lines, and an exception is a `Fail`
result carrying the Python exception's name.

## Model

| member | source | states |
|---|---|---|
| Strings.Lower | sheet-06/qgram_index.py:213 | `str.lower` on a character leaves no upper-case letter and keeps letters, digits, `_` and whitespace in their classes |
| Strings.LowerStrIdempotent | sheet-06/qgram_index.py:213 | lower-casing twice is lower-casing once |
| Strings.Split | sheet-06/qgram_index.py:68 | `split` on one character: one piece more than separators, none holding the separator |
| Strings.SplitJoin | sheet-06/qgram_index.py:68 | joining the pieces of a split gives back the line |
| Strings.JoinSplit | sheet-06/qgram_index.py:68 | splitting a join of separator-free pieces gives back the pieces |
| Strings.StripLeft | sheet-12/sparql_to_sql.py:86-88 | the leading whitespace, and only it, is removed |
| Strings.StripRight | sheet-12/sparql_to_sql.py:86-88 | the trailing whitespace, and only it, is removed |
| Strings.LetterWords | sheet-01/inverted_index.py:45-46 | the words of a line are non-empty runs of lower-case ASCII letters |
| Strings.LetterWordsStrip | sheet-01/inverted_index.py:42-46 | stripping the line first does not change its words |
| Strings.FindFrom | sheet-12/sparql_to_sql.py:71-75 | the first occurrence at or after the start, or -1 when there is none |
| Strings.Find | sheet-12/sparql_to_sql.py:71-75 | `str.find`: the lowest index at or after the normalised start where the text occurs, or -1 |
| Strings.RFind | sheet-12/sparql_to_sql.py:71-75 | `str.rfind`: the highest index at or after the normalised start where the text occurs, or -1 |
| Strings.Slice | sheet-12/sparql_to_sql.py:76-93 | `s[a:b]` with Python's negative and out-of-range bounds |
| Strings.IntToString | sheet-06/search_server.py:139-143 | `%d` gives a non-empty string with no leading whitespace, ending in a digit |
| Strings.ParseInt | sheet-02/evaluate.py:40 | `int(s)` succeeds only on a string with something left after stripping |
| Strings.ParseIntToString | sheet-02/evaluate.py:40 | `int(str(n)) == n` |
| Strings.EncodeChar | sheet-06/search_server.py:118 | UTF-8 takes one to four bytes per character, one byte equal to its code exactly for ASCII |
| Strings.EncodeAscii | sheet-06/search_server.py:137 | ASCII text encodes to one byte per character, each its code |
| Strings.EncodeLength | sheet-06/search_server.py:143-145 | an encoding is at least as long as the text and at most four times as long |
| Sorting.Insert | sheet-06/qgram_index.py:129 | one insertion step of the sort: sorted, and the input plus the element as a multiset |
| Sorting.SortBy | sheet-06/qgram_index.py:191 | `sorted(s, key=...)` is sorted by the key and a permutation of `s` |
| Sorting.SortStable | sheet-05/qgram_index.py:200-201 | elements with equal keys keep their input order, which the two consecutive sorts of `rank_matches` rely on |
| Sorting.FilterSorted | sheet-06/qgram_index.py:191-199 | what a filter keeps of a sorted sequence is still sorted |
| Postings.MergedSpec | sheet-06/qgram_index.py:126-138 | the merged list holds each id once, in ascending order, with its total count over all lists |
| Postings.FoldSums | sheet-06/qgram_index.py:129-134 | the fold keeps every id's total count |
| Postings.FoldIds | sheet-06/qgram_index.py:129-134 | the fold keeps exactly the ids of its input |
| Postings.FoldAscending | sheet-06/qgram_index.py:129-134 | folding postings sorted by id leaves each id once, in ascending order |
| Postings.SortSums | sheet-06/qgram_index.py:129 | sorting keeps every id's total count |
| Postings.SumForFlatten | sheet-06/qgram_index.py:129 | the count of an id in the chained lists is the sum over the lists |
| Postings.ListFor | sheet-06/qgram_index.py:87-96 | the reference list of a key is sorted by id, each id a document holding the key with a positive count |
| Postings.IndexOfSpec | sheet-06/qgram_index.py:87-96 | the index built occurrence by occurrence holds exactly the reference list of every key |
| Postings.ListForCount | sheet-06/qgram_index.py:87-96 | the count of document n in a key's list is the number of occurrences of the key in document n |
| Postings.AscendingUnique | sheet-06/qgram_index.py:126-138 | a list sorted by id with each id once is determined by its ids and counts |
| Postings.SortStrict | sheet-06/qgram_index.py:129 | sorting postings whose ids are distinct sorts them strictly by id |
| PrefixEditDistance.PedMin | sheet-06/qgram_index.py:140-143 | PED is the least edit distance from the prefix to some prefix of the name |
| PrefixEditDistance.PedZero | sheet-06/qgram_index.py:140-143 | PED is 0 exactly when x is a prefix of y |
| PrefixEditDistance.PedAtMostLength | sheet-06/qgram_index.py:140-143 | PED never exceeds the length of x |
| PrefixEditDistance.EdZero | sheet-06/qgram_index.py:140-143 | only equal strings are at edit distance 0 |
| PrefixEditDistance.EdCommonPrefix | sheet-06/qgram_index.py:140-143 | a common prefix never increases the edit distance |
| QGramFilter.Windows | sheet-06/qgram_index.py:108-110 | the substrings of length q, left to right |
| QGramFilter.PaddedGrams | sheet-06/qgram_index.py:107-111 | one padded q-gram per character of the word |
| QGramFilter.SharedAfterEdits | sheet-06/qgram_index.py:162-178 | each edit destroys at most q of the shared q-grams |
| QGramFilter.FilterCount | sheet-06/qgram_index.py:162-178 | if PED(x, y) <= delta, at least len(x) - q*delta padded q-grams of y are q-grams of x, so the count filter drops no match |
| Postings.MergeExample | sheet-06/qgram_index.py:117-119 | the first doctest of `merge_lists` (the same doctest as sheet-05/qgram_index.py:128-131): id 3 occurs in both lists and its counts add up to 3; both versions of `merge_lists` return `Merged` |
| Postings.MergeEmptyExample | sheet-06/qgram_index.py:120-123 | the second and third doctests of `merge_lists`, in both versions: an empty list adds nothing, and two empty lists merge to [] |
| RecordLists.LineWords | sheet-01/inverted_index.py:45-50 | one word list per line, the lower-cased maximal runs of ASCII letters of that line, empty runs dropped |
| RecordLists.RecordsWithMember | sheet-01/inverted_index.py:52-59 | the reference list of a word holds record id x exactly when 1 <= x <= number of records and record x contains the word |
| RecordLists.AddDocsSpec | sheet-01/inverted_index.py:39-59 | the lists built from an empty index are exactly the reference lists, and a word has a list exactly when some record holds it |
| RecordLists.ListsOfLines | sheet-01/inverted_index.py:24-37 | after reading the lines, every list is increasing (each record id at most once) and holds id x exactly when line x contains the word |
| RecordLists.AddIdsNonEmpty | sheet-01/inverted_index.py:52-59 | adding the words of a record keeps every list non-empty, so the `[-1]` lookup is always defined |
| RecordLists.AddIdsGet | sheet-01/inverted_index.py:52-59 | the words of record id append id once to the list of each word they contain and leave every other list unchanged |
| RecordLists.RecordsAt | sheet-02/inverted_index.py:82-88 | record i is line i stripped and split at its tabs |
| RecordLists.RecordsRebuild | sheet-02/inverted_index.py:83-88 | joining a record's fields with tabs gives back its stripped line |
| BooleanIndex.IntersectionSound | sheet-01/inverted_index.py:73-85 | every id of the intersection is on both lists, whatever the input |
| BooleanIndex.IntersectionComplete | sheet-01/inverted_index.py:61-85 | for increasing lists every id on both lists is in the intersection |
| BooleanIndex.IntersectionIncreasing | sheet-01/inverted_index.py:73-85 | the intersection of increasing lists is increasing |
| BooleanIndex.IntersectionExamples | sheet-01/inverted_index.py:66-70 | the two doctests of `intersect` |
| BooleanIndex.IntersectAllSpec | sheet-01/inverted_index.py:87-119 | over increasing lists, a query whose keywords all have lists yields an increasing list holding exactly the ids on every keyword's list |
| BooleanIndex.QueryMissing | sheet-01/inverted_index.py:104-118 | fewer than two keywords give []; a missing first or second keyword fails with a lookup error; a later keyword without a list gives [] |
| BooleanIndex.QueryExamples | sheet-01/inverted_index.py:94-101 | the three doctests of `process_query` over the lists of the example file |
| BooleanIndex.InvertedIndex.constructor | sheet-01/inverted_index.py:18-22 | a new index has no lists |
| BooleanIndex.InvertedIndex.ReadFromLines | sheet-01/inverted_index.py:24-59 | the lists become those of the old lists extended by the lines as records 1, 2, ..., and every list stays non-empty |
| BooleanIndex.InvertedIndex.AddRecord | sheet-01/inverted_index.py:45-59 | the words of one record go onto their lists, each id once per list |
| BooleanIndex.InvertedIndex.Intersect | sheet-01/inverted_index.py:61-85 | the walk with two indices returns the reference intersection and takes at most len(list1) + len(list2) steps |
| BooleanIndex.InvertedIndex.ProcessQuery | sheet-01/inverted_index.py:87-119 | returns the query result of the reference definition (empty, lookup error, or the intersection of all lists) |
| ScoredIndex.UnionIds | sheet-02/inverted_index.py:136-155 | the union holds the ids of both lists and no other, whatever the input |
| ScoredIndex.UnionScore | sheet-02/inverted_index.py:138-154 | the score of every id in the union is the sum of its scores in both lists |
| ScoredIndex.UnionAscending | sheet-02/inverted_index.py:105-110 | the union of lists sorted by id (each id once) is sorted by id, each id once |
| ScoredIndex.UnionLength | sheet-02/inverted_index.py:136-155 | for ascending lists the union has len(list1) + len(list2) minus the number of shared ids postings |
| ScoredIndex.UnionEntries | sheet-02/inverted_index.py:138-154 | for ascending lists a posting is in the union exactly when its id is in one of the lists and its score is that id's summed score; an id in only one list keeps its posting |
| ScoredIndex.UnionExamples | sheet-02/inverted_index.py:112-131 | the five doctests of `merge` |
| ScoredIndex.InvertedIndex.constructor | sheet-02/inverted_index.py:19-28 | a new index has no lists and no records |
| ScoredIndex.InvertedIndex.ReadFromLines | sheet-02/inverted_index.py:79-101 | appends one record per line (the stripped line split at tabs), and the lists grow by the lines as records 1, 2, ..., each id once per list |
| ScoredIndex.InvertedIndex.AddRecord | sheet-02/inverted_index.py:90-101 | the words of one record go onto their lists, each id once per list |
| ScoredIndex.InvertedIndex.Merge | sheet-02/inverted_index.py:105-155 | the walk with two indices followed by the rest of the unused list returns the reference union (the inputs are values and stay unchanged) |
| Evaluation.PrecisionBounds | sheet-02/evaluate.py:86-96 | for k > 0 the precision at k lies in [0, 1] |
| Evaluation.PrecisionExamples | sheet-02/evaluate.py:78-84 | the three doctests of `precision_at_k`: 0 for k = 0, 0.75 for k = 4, and 0.5 for k = 8 with only five results (the division is by k) |
| Evaluation.PrecisionAtK | sheet-02/evaluate.py:69-98 | the loop returns 0 for k = 0 and otherwise the number of relevant ids among the first min(k, len(results)) results divided by k |
| Evaluation.PrecisionSumBounds | sheet-02/evaluate.py:113-118 | the summed precisions lie between 0 and the number of relevant results |
| Evaluation.NoHitsSum | sheet-02/evaluate.py:115-118 | with no relevant result the sum stays 0 |
| Evaluation.HitsDistinct | sheet-02/evaluate.py:115-117 | without repeated results the number of hits is the number of relevant ids found |
| Evaluation.AveragePrecisionFails | sheet-02/evaluate.py:119 | average precision fails, with a division by zero, exactly when the relevant set is empty |
| Evaluation.AveragePrecisionNoHits | sheet-02/evaluate.py:113-120 | no relevant result gives average precision 0 |
| Evaluation.AveragePrecisionBounds | sheet-02/evaluate.py:113-120 | for results without repetition and a non-empty relevant set, the average precision lies in [0, 1] |
| Evaluation.AveragePrecisionExample | sheet-02/evaluate.py:109-111 | the doctest: (1/1 + 2/4 + 3/5) / 4 = 0.525 |
| Evaluation.AveragePrecision | sheet-02/evaluate.py:100-120 | the loop returns the sum over relevant positions i of hits-so-far / i, divided by the number of relevant ids, or the division-by-zero failure |
| Evaluation.ParseIntsAt | sheet-02/evaluate.py:40 | when `map(int, ...)` succeeds, the k-th number is the value of the k-th piece |
| Evaluation.ReadEntriesStep | sheet-02/evaluate.py:36-41 | one more line either binds its query to its ids or is the failure of the whole read |
| Evaluation.ReadEntriesFailPrefix | sheet-02/evaluate.py:36-41 | a line that fails ends the read with its failure, whatever follows |
| Evaluation.ReadEntriesLinesOk | sheet-02/evaluate.py:36-41 | a benchmark that reads has every line well formed |
| Evaluation.ReadEntriesKeys | sheet-02/evaluate.py:33-42 | the queries of the benchmark are exactly the queries of its lines |
| Evaluation.ReadEntriesLastWins | sheet-02/evaluate.py:41 | a query maps to the ids of the last line with that query |
| Evaluation.BenchmarkLineFormat | sheet-02/evaluate.py:19-23 | round trip: a line `<query>TAB<id> <id> ...` reads back as that query with the set of those ids |
| Evaluation.FormatIdsParse | sheet-02/evaluate.py:39-40 | ids written with single spaces read back as the ids |
| Evaluation.BenchmarkTwoLines | sheet-02/evaluate.py:33-42 | two formatted lines read back as the map of their two queries |
| Evaluation.BenchmarkExample | sheet-02/evaluate.py:25-28 | the doctest of `read_benchmark`: 'animated film' maps to {1, 3, 4} and 'short film' to {3, 4} |
| Evaluation.ReadBenchmark | sheet-02/evaluate.py:19-42 | the loop returns the reference reading of the lines |
| Bm25Index.Lengths | sheet-08/inverted_index.py:98-128 | one document length per line of the file |
| Bm25Index.LengthsAt | sheet-08/inverted_index.py:98-128 | the length of document i is the number of its non-empty words |
| Bm25Index.Rescore | sheet-08/inverted_index.py:139-149 | the second pass keeps every posting's document id and the length of the list |
| Bm25Index.Rescored | sheet-08/inverted_index.py:138-149 | the second pass keeps exactly the words of the first |
| Bm25Index.CountTotalSnoc | sheet-08/inverted_index.py:101-122 | one more word occurrence adds one to the count of its word and leaves the others |
| Bm25Index.CountTotalCovers | sheet-08/inverted_index.py:101-122 | over distinct words that cover a document, the occurrence counts add up to its length |
| Bm25Index.CountTotalEmpty | sheet-08/inverted_index.py:98 | an empty document has no occurrences |
| Bm25Index.TfTotalCounts | sheet-08/inverted_index.py:101-122 | the tf values a document has over the lists add up to its occurrence counts |
| Bm25Index.DocumentLength | sheet-08/inverted_index.py:98-128 | after the first pass, the tf values of a document over all lists add up to its recorded length |
| Bm25Index.FirstPassCounts | sheet-08/inverted_index.py:110-122 | after the first pass each list is strictly ascending by id and each tf is the number of occurrences of the word in that document |
| Bm25Index.FirstPassMember | sheet-08/inverted_index.py:94-122 | a document is on the list of a word exactly when its line holds the word |
| Bm25Index.FirstPassIds | sheet-08/inverted_index.py:94-99 | every id of the first pass is a document number 1..n |
| Bm25Index.RowTripletsMember | sheet-08/inverted_index.py:199-208 | a triplet of a list is exactly a non-zero score in that row at column id - 1 |
| Bm25Index.ListMaxBound | sheet-08/inverted_index.py:200-202 | the column count is at least every id seen |
| Bm25Index.AllTripletsMember | sheet-08/inverted_index.py:198-208 | the triplets of all lists are exactly the non-zero scored postings in the row of their term, within the column count |
| Bm25Index.MatrixEntries | sheet-08/inverted_index.py:193-211 | the built matrix has one row per term, a column for every id, and exactly the non-zero postings as entries |
| Bm25Index.RowsForMember | sheet-08/inverted_index.py:288-292 | the rows added for a keyword are exactly the rows whose term equals it |
| Bm25Index.KeywordRowsMember | sheet-08/inverted_index.py:287-292 | a row is in the query exactly when its term is one of the keywords |
| Bm25Index.KeywordRowsEmpty | sheet-08/inverted_index.py:294-295 | no row is queried exactly when no keyword is a term |
| Bm25Index.QueryStartSpec | sheet-08/inverted_index.py:282-295 | no result exactly when there is no keyword or no keyword is a term; otherwise the query rows are those of the keywords |
| Bm25Index.InvertedIndex.constructor | sheet-08/inverted_index.py:26-37 | a new index has no lists, no documents, no lengths and no matrix |
| Bm25Index.InvertedIndex.BuildFromLines | sheet-08/inverted_index.py:39-149 | the documents, lengths and tf lists are those of the lines; no line fails with a division by zero; otherwise every posting is scored with the average length |
| Bm25Index.InvertedIndex.FirstPass | sheet-08/inverted_index.py:93-128 | the first pass yields the records, lengths, tf lists and key order of the lines, ids within 1..n |
| Bm25Index.InvertedIndex.AddDocument | sheet-08/inverted_index.py:101-122 | the words of one line go onto their lists and the result is the line's length |
| Bm25Index.InvertedIndex.AddWord | sheet-08/inverted_index.py:110-122 | a new word gets [(id, 1)] and goes last in key order; otherwise the last posting's tf goes up or (id, 1) is appended |
| Bm25Index.InvertedIndex.SecondPass | sheet-08/inverted_index.py:138-149 | every list is rescored posting by posting |
| Bm25Index.InvertedIndex.PreprocessingVsm | sheet-08/inverted_index.py:193-211 | the matrix stored is the one of the lists, or the failure and the old matrix |
| Bm25Index.InvertedIndex.ProcessQueryVsm | sheet-08/inverted_index.py:282-295 | the loop computes the query start of the keywords |
| Bm25Index.ZipSnoc | sheet-08/inverted_index.py:206-208 | the three parallel lists stay aligned as triplets |
| Bm25Index.ListStep | sheet-08/inverted_index.py:199-208 | one more posting extends the triplets and the column count as the loop does |
| Bm25Index.TermStep | sheet-08/inverted_index.py:198 | one more list extends the triplets by its row |
| Bm25Index.FirstPassStep | sheet-08/inverted_index.py:95-128 | one more line extends the records, words, lists and lengths |
| Bm25Index.KeysStep | sheet-08/inverted_index.py:110-113 | one more word keeps the keys equal to the words seen, in first-seen order |
| Bm25Index.AddAllStep | sheet-08/inverted_index.py:101 | the words of a line are added one at a time |
| NaiveBayes.ParseExampleSpec | sheet-10/naive_bayes.py:39 | a line unpacks into (label, text) exactly when its stripped form holds one tab; the pieces then join back to the stripped line; otherwise a ValueError |
| NaiveBayes.Examples | sheet-10/naive_bayes.py:38-39 | a file that reads gives one pair per line |
| NaiveBayes.ParseLines | sheet-10/naive_bayes.py:38-39 | the lines are parsed in order, one pair per line |
| NaiveBayes.LabelsOf | sheet-10/naive_bayes.py:39-41 | the label of each pair, in order |
| NaiveBayes.ParseLinesFail | sheet-10/naive_bayes.py:38-39 | the first line that does not unpack ends the read with its error |
| NaiveBayes.ParseLinesStep | sheet-10/naive_bayes.py:38-39 | one more line read extends the pairs by its parse |
| NaiveBayes.ParseLinesSpec | sheet-10/naive_bayes.py:38-39 | the read succeeds exactly when every line unpacks, and then pair i is the parse of line i |
| NaiveBayes.FirstIndexDistinct | sheet-10/naive_bayes.py:41-43 | in a first-seen order, the element at i was the i-th new one |
| NaiveBayes.NumberingDense | sheet-10/naive_bayes.py:41-54 | the ids given are 0 .. n-1, one per distinct key, with different keys getting different ids |
| NaiveBayes.NumberingSnoc | sheet-10/naive_bayes.py:41-43 | a new key gets the number of keys seen so far |
| NaiveBayes.VocabularyStep | sheet-10/naive_bayes.py:41-54 | one more key: the dictionary gains it with the running counter unless it has it, and the counter goes up |
| NaiveBayes.AllWordsSnoc | sheet-10/naive_bayes.py:46-51 | the words of one more text follow the words seen so far |
| NaiveBayes.AddKey | sheet-10/naive_bayes.py:41-43 | one key added with the running counter keeps the dictionary the numbering of the first-seen keys |
| NaiveBayes.LabelsOfSnoc | sheet-10/naive_bayes.py:41 | the label of one more line follows the labels seen so far |
| NaiveBayes.AddWords | sheet-10/naive_bayes.py:51-54 | the words of one text added in order keep the dictionary the numbering of the first-seen words |
| NaiveBayes.NumberingFirstSeen | sheet-10/naive_bayes.py:33-54 | the dictionary filled by scanning holds exactly the keys scanned, with ids below the count of distinct keys |
| NaiveBayes.NumberingOrder | sheet-10/naive_bayes.py:41-54 | ids follow the order of first appearance |
| NaiveBayes.NumberingExtend | sheet-10/naive_bayes.py:41-52 | scanning more never changes an id already given |
| NaiveBayes.GenerateVocabularies | sheet-10/naive_bayes.py:19-56 | the loop returns the reference vocabularies: words and labels numbered in order of first appearance, or the ValueError |
| NaiveBayes.VocabulariesFail | sheet-10/naive_bayes.py:39 | the vocabularies fail, with a ValueError, exactly when some stripped line does not hold exactly one tab |
| NaiveBayes.VocabulariesOk | sheet-10/naive_bayes.py:19-56 | otherwise the vocabularies hold exactly the labels and the words of the file, with ids below their counts |
| NaiveBayes.Kept | sheet-10/naive_bayes.py:96 | the lines kept are at most all lines and each has a known label |
| NaiveBayes.KeptLabels | sheet-10/naive_bayes.py:96-98 | one class id per kept line |
| NaiveBayes.KnownIds | sheet-10/naive_bayes.py:100-102 | only ids of the word vocabulary are emitted |
| NaiveBayes.KeptSnoc | sheet-10/naive_bayes.py:96 | one more line is kept exactly when its label is known |
| NaiveBayes.KeptLabelsSnoc | sheet-10/naive_bayes.py:96-98 | one more kept line adds its class id |
| NaiveBayes.RowCellsCount | sheet-10/naive_bayes.py:100-106 | the cells of one line count each known word id as often as it occurs, in that line's row only |
| NaiveBayes.CellsCount | sheet-10/naive_bayes.py:66-106 | with rows numbered among the kept lines, entry (k, j) counts word id j in the k-th kept line and other rows are empty |
| NaiveBayes.CellsCountKeep | sheet-10/naive_bayes.py:96-106 | one more kept line adds its own row's counts |
| NaiveBayes.CellsInShape | sheet-10/naive_bayes.py:90-108 | every cell lies inside the shape (kept lines x word ids) |
| NaiveBayes.CellsSnoc | sheet-10/naive_bayes.py:96-106 | one more line adds its cells in the row the rule gives |
| NaiveBayes.ExampleStep | sheet-10/naive_bayes.py:93-106 | one more line read: a kept line adds its row, its label and its cells, a skipped one nothing |
| NaiveBayes.AddWordCells | sheet-10/naive_bayes.py:100-106 | the inner loop appends a cell per known word of the text |
| NaiveBayes.ReadLabeledData | sheet-10/naive_bayes.py:59-110 | the loop returns the reference reading with rows numbered among the kept lines |
| NaiveBayes.LabeledDataSpec | sheet-10/naive_bayes.py:59-110 | with the vocabularies' ids, the read never fails; the matrix has a row per kept line and len(wv) columns, the labels are their class ids, and entry (k, j) counts word id j in the k-th kept line |
| NaiveBayes.KeptAll | sheet-10/naive_bayes.py:96 | when every label is known, no line is skipped |
| NaiveBayes.RowRulesAgree | sheet-10/naive_bayes.py:93-103 | when every label is known, the line index and the kept-line index give the same cells |
| NaiveBayes.ReadLabeledDataAsWritten | sheet-10/naive_bayes.py:93-108 | as written, lines ["x TAB foo", "a TAB foo"] with only "a" known put a cell in row 1 of a one-row matrix and fail; numbered among kept lines they give the one-row matrix |
| NaiveBayes.SkipThenKeepData | sheet-10/naive_bayes.py:93-108 | a skipped line and then a kept one: the line-index rule fails, the kept-line rule gives one row |
| NaiveBayes.SkipThenKeepLine | sheet-10/naive_bayes.py:103-108 | a skipped line and then a kept one: the line-index rule fails |
| NaiveBayes.SkipThenKeepExample | sheet-10/naive_bayes.py:96-108 | a skipped line and then a kept one: the kept-line rule gives one row |
| NaiveBayes.LabeledDataOf | sheet-10/naive_bayes.py:108-110 | the result is the matrix of the cells with len(kept lines) rows and len(wv) columns, or its failure |
| NaiveBayes.SkipThenKeep | sheet-10/naive_bayes.py:96-106 | a skipped line then a kept one: one kept line, its label, and its cells in row 1 or row 0 by rule |
| NaiveBayes.TwoLines | sheet-10/naive_bayes.py:94 | two label-tab-text lines read back as their two pairs |
| NaiveBayes.ExampleLine | sheet-10/naive_bayes.py:94 | a label-tab-text line parses to that pair |
| NaiveBayes.ParseLinesPair | sheet-10/naive_bayes.py:93-94 | two lines that parse give their two pairs |
| NaiveBayes.JoinPair | sheet-10/naive_bayes.py:94 | joining two pieces with the separator puts it between them |
| NaiveBayes.FooWords | sheet-10/naive_bayes.py:99-102 | the text "foo" has the one known word id 0 |
| NaiveBayesClassifier.LastAboveUpToSpec | sheet-10/naive_bayes.py:203-209 | the selection loop as written ends on the last column j >= 1 whose score exceeds column 0's, or 0 when none does |
| NaiveBayesClassifier.LastAboveSpec | sheet-10/naive_bayes.py:202-209 | as written, the label of a row is the last column beating column 0, or 0 |
| NaiveBayesClassifier.ArgMaxUpTo | sheet-10/naive_bayes.py:204-209 | the running maximum over the first n columns is one of them |
| NaiveBayesClassifier.ArgMaxUpToSpec | sheet-10/naive_bayes.py:204-209 | the running maximum is a column of highest score among the first n, and the first such |
| NaiveBayesClassifier.ArgMaxSpec | sheet-10/naive_bayes.py:182-209 | the corrected label is a column of highest score ("a label for each example based on the learned probabilities"), the first such |
| NaiveBayesClassifier.ChoicesAgreeOnTwoColumns | sheet-10/naive_bayes.py:202-209 | with at most two classes the as-written choice is the highest-scoring one |
| NaiveBayesClassifier.ChoicesDiffer | sheet-10/naive_bayes.py:202-209 | scores with row[0] < row[2] < row[1] are labelled 2 as written but 1 as intended |
| NaiveBayesClassifier.PredictAsWrittenMisses | sheet-10/naive_bayes.py:202-210 | the score row [0.0, 2.0, 1.0] is predicted 2 as written but 1 as intended |
| NaiveBayesClassifier.PredictAsWritten | sheet-10/naive_bayes.py:202-210 | the nested loops as written return, per row, the last column beating column 0 |
| NaiveBayesClassifier.Predict | sheet-10/naive_bayes.py:180-210 | the corrected loops return, per row, the first column of highest score; a row without columns fails |
| NaiveBayesClassifier.TableWidthSpec | sheet-10/naive_bayes.py:237-250 | the table is at least two wide, one past every true and predicted label, and no wider |
| NaiveBayesClassifier.Tally | sheet-10/naive_bayes.py:237-255 | the counting loop fills the table of per-class true, predicted and agreeing counts; fewer predictions than labels is an IndexError |
| NaiveBayesClassifier.TallyOne | sheet-10/naive_bayes.py:239-255 | one round grows the table if need be and counts one document in each row |
| NaiveBayesClassifier.Grow | sheet-10/naive_bayes.py:240-250 | the concatenation adds zero columns until the larger label fits, keeping the counts |
| NaiveBayesClassifier.UnseenCounts | sheet-10/naive_bayes.py:247-250 | classes beyond the current width have not been counted |
| NaiveBayesClassifier.AgreementsBound | sheet-10/naive_bayes.py:252-255 | agreements on a class are at most its true and at most its predicted labels |
| NaiveBayesClassifier.SumCountsSnoc | sheet-10/naive_bayes.py:252-253 | one more label adds one to the total when it is within the width |
| NaiveBayesClassifier.SumCountsAll | sheet-10/naive_bayes.py:252-253 | labels all within the width are counted once each |
| NaiveBayesClassifier.SumCountsEmpty | sheet-10/naive_bayes.py:237 | no document, no count |
| NaiveBayesClassifier.SumPrefixCounts | sheet-10/naive_bayes.py:252-253 | a prefix of the histogram sums to the counts of its classes |
| NaiveBayesClassifier.HistogramSum | sheet-10/naive_bayes.py:252-253 | a histogram wide enough for all labels sums to the number of documents |
| NaiveBayesClassifier.TableSums | sheet-10/naive_bayes.py:237-255 | the true and predicted rows each sum to the number of documents; agreements never exceed either |
| NaiveBayesClassifier.Evaluate | sheet-10/naive_bayes.py:212-264 | predict (corrected), count, then one precision, recall and F1 per table column |
| NaiveBayesClassifier.ScoreTable | sheet-10/naive_bayes.py:257-264 | the closing loop gives every column its precision, recall and F1 |
| NaiveBayesClassifier.LeQuotient | sheet-10/naive_bayes.py:259-260 | a quotient bound used for the [0, 1] ranges |
| NaiveBayesClassifier.QuotientLe | sheet-10/naive_bayes.py:259-260 | a quotient bound used for the [0, 1] ranges |
| NaiveBayesClassifier.HarmonicMeanOrdered | sheet-10/naive_bayes.py:261-262 | the F-measure of p <= r lies between them |
| NaiveBayesClassifier.HarmonicMeanSymmetric | sheet-10/naive_bayes.py:261-262 | the F-measure does not depend on the order of precision and recall |
| NaiveBayesClassifier.HarmonicMeanBetween | sheet-10/naive_bayes.py:261-262 | the F-measure of two non-negative values lies between them |
| NaiveBayesClassifier.RatioSpec | sheet-10/naive_bayes.py:259-260 | a count over a larger count is missing (nan or inf) only for a zero divisor and otherwise lies in [0, 1] |
| NaiveBayesClassifier.F1Between | sheet-10/naive_bayes.py:261-262 | an F1 exists only with both precision and recall and lies between them |
| NaiveBayesClassifier.ScoresSpec | sheet-10/naive_bayes.py:257-264 | every class of the table gets precision and recall in [0, 1], missing exactly when nothing was predicted, respectively labelled, with it; its F1 lies between them |
| NaiveBayesClassifier.TableExample | sheet-10/naive_bayes.py:222 | predictions [0, 1, 0] against labels [0, 1, 1] give the table of the doctest |
| NaiveBayesClassifier.ScoresExample | sheet-10/naive_bayes.py:223-228 | the doctest: precisions {0: 0.5, 1: 1.0}, recalls {0: 1.0, 1: 0.5}, F1 2/3 for both |
| QGramIndex.Normalize | sheet-06/qgram_index.py:202-214 | the normal form is no longer than the word and holds only alphanumeric, non-upper-case characters |
| QGramIndex.LowerStrFixed | sheet-06/qgram_index.py:213 | lower-casing a string without upper-case letters changes nothing |
| QGramIndex.NormalizeIdempotent | sheet-06/qgram_index.py:213-214 | normalising twice is normalising once |
| QGramIndex.NormalizeExampleFilter | sheet-06/qgram_index.py:214 | filtering "frei, burg !?!" keeps "freiburg" |
| QGramIndex.NormalizeExample | sheet-06/qgram_index.py:206-210 | the doctest: "Frei, burG !?!" normalises to "freiburg" |
| QGramIndex.GoodLines | sheet-06/qgram_index.py:66-77 | the lines before the first whose names cannot be read (no sixth field with synonyms on) all have names, and that line has none |
| QGramIndex.GoodLinesNext | sheet-06/qgram_index.py:66-77 | a line with names extends the good prefix |
| QGramIndex.GoodLinesStop | sheet-06/qgram_index.py:75-76 | a line without names is where the good prefix ends |
| QGramIndex.RecordsOf | sheet-06/qgram_index.py:79-81 | each name of a line becomes one record of that line's entity |
| QGramIndex.EntityIds | sheet-06/qgram_index.py:81 | one entity id per name |
| QGramIndex.RawNames | sheet-06/qgram_index.py:85 | one name as written per name |
| QGramIndex.NormNames | sheet-06/qgram_index.py:82-84 | one normalised name per name |
| QGramIndex.SplitLines | sheet-06/qgram_index.py:68-71 | one field list per line |
| QGramIndex.SplitLinesStep | sheet-06/qgram_index.py:68-71 | one more line caches its fields |
| QGramIndex.RecordsStep | sheet-06/qgram_index.py:66-85 | a line with names extends the records by its names, under entity id i + 1 |
| QGramIndex.RecordsAppend | sheet-06/qgram_index.py:79-87 | one more name extends the entity ids, names, normalised names and gram lists by one |
| QGramIndex.RecordsOfStep | sheet-06/qgram_index.py:79-81 | the names of a line are recorded one at a time |
| QGramIndex.RecordsOfSnoc | sheet-06/qgram_index.py:79-81 | the records read so far grow by one per name |
| QGramIndex.EntityIdsBound | sheet-06/qgram_index.py:67-81 | entity ids stay within 1 and the number of lines read |
| QGramIndex.RecordsEntities | sheet-06/qgram_index.py:62-81 | every name's entity id is a line number 1..n (ids are one-based) |
| QGramIndex.IndexOfStep | sheet-06/qgram_index.py:87-96 | the grams of one more name are counted under the next name id |
| QGramIndex.BuiltWhole | sheet-06/qgram_index.py:61-96 | when every line has names the build is complete without error |
| QGramIndex.BuiltStop | sheet-06/qgram_index.py:75-76 | the first line without names ends the build with IndexError, its fields cached |
| QGramIndex.QGramIndex.constructor | sheet-06/qgram_index.py:26-44 | a new index has its q, the synonym flag, no lists, names or entities, and no statistics |
| QGramIndex.QGramIndex.ComputeQGrams | sheet-06/qgram_index.py:98-111 | the loop returns the padded q-grams, one per character of the word |
| QGramIndex.QGramIndex.AddQGrams | sheet-06/qgram_index.py:87-96 | each q-gram's list gets (name id, 1) or its last posting's count raised |
| QGramIndex.QGramIndex.AddName | sheet-06/qgram_index.py:79-96 | one more name is numbered, cached with its normalised form and indexed |
| QGramIndex.QGramIndex.AddNames | sheet-06/qgram_index.py:77-96 | the names of an entity are numbered on, cached and indexed |
| QGramIndex.QGramIndex.AddEntity | sheet-06/qgram_index.py:67-96 | the fields are cached first; a line without a sixth field raises IndexError with synonyms on; otherwise its names are indexed |
| QGramIndex.QGramIndex.BuildFromLines | sheet-06/qgram_index.py:46-96 | skip the header, entity i is line i; the index holds the names of the lines read and the error of the first line without names |
| QGramIndex.QGramIndex.ReadNone | sheet-06/qgram_index.py:61-64 | an empty index has read no line |
| QGramIndex.QGramIndex.ReadAll | sheet-06/qgram_index.py:66-96 | once every line is read the index is complete |
| QGramIndex.QGramIndex.BuildStep | sheet-06/qgram_index.py:66-96 | one pass of the line loop reads the line or ends the build with its error |
| QGramIndex.QGramIndex.StepStop | sheet-06/qgram_index.py:75-76 | a line without names ends the build with the lines before it indexed |
| QGramIndex.QGramIndex.StopValid | sheet-06/qgram_index.py:71-76 | the cached fields and names still agree when a line fails |
| QGramIndex.QGramIndex.StepNext | sheet-06/qgram_index.py:66-96 | a line with names extends the lines read by one |
| QGramIndex.QGramIndex.MergeLists | sheet-06/qgram_index.py:113-138 | the merged list of the lists; the statistics record the number of lists and of postings |
| QGramIndex.QGramIndex.FindMatches | sheet-06/qgram_index.py:140-200 | the result is the reference search of the prefix; the statistics record lists, postings and PED computations |
| QGramIndex.RankMerged | sheet-06/qgram_index.py:174-200 | verify, sort, keep one per entity and score, as the reference; counts PED computations and postings |
| QGramIndex.CollectLists | sheet-06/qgram_index.py:167-170 | the list of every q-gram of the prefix that has one, in order |
| QGramIndex.VerifyCandidates | sheet-06/qgram_index.py:176-185 | the candidates are the postings reaching the threshold with PED at most delta; one PED per posting reaching the threshold |
| QGramIndex.VerifyNext | sheet-06/qgram_index.py:176-185 | one posting of the verification loop |
| QGramIndex.ToMatchesStep | sheet-06/qgram_index.py:195-198 | one more kept candidate extends the scored matches |
| QGramIndex.KeptPrefixIn | sheet-06/qgram_index.py:195-198 | kept candidates of a prefix keep their entities in range |
| QGramIndex.FirstPerEntityStep | sheet-06/qgram_index.py:195-196 | one more candidate is kept exactly when its entity differs from the last kept |
| QGramIndex.ScoreFirstPerEntity | sheet-06/qgram_index.py:193-200 | the first candidate of each entity is reported with `int(entities[e-1][1])`; a malformed score raises |
| QGramIndex.ScoreAt | sheet-06/qgram_index.py:195-198 | one pass of the result loop over candidate k |
| QGramIndex.KeptStep | sheet-06/qgram_index.py:195-196 | the kept candidates after one more candidate |
| QGramIndex.ScoreNext | sheet-06/qgram_index.py:196-198 | a candidate of a new entity is reported with its score, or the score's error ends the result |
| QGramIndex.ScoreNew | sheet-06/qgram_index.py:197-198 | a kept candidate is reported with its entity's score or its error |
| QGramIndex.KeptNew | sheet-06/qgram_index.py:196 | a candidate whose entity differs from the last reported one is kept |
| QGramIndex.KeptSkip | sheet-06/qgram_index.py:196 | a candidate of the last reported entity is skipped |
| QGramIndex.AppendOk | sheet-06/qgram_index.py:197-198 | a well-formed score appends (entity, PED, score, name id) |
| QGramIndex.AppendFail | sheet-06/qgram_index.py:197-198 | a malformed score is the error of the result |
| QGramIndex.LastMatch | sheet-06/qgram_index.py:196 | the last reported entity is that of the last kept candidate |
| QGramIndex.ScoreFail | sheet-06/qgram_index.py:197-198 | a failing prefix makes the whole result fail the same way |
| QGramIndex.SortedLength | sheet-06/qgram_index.py:129 | sorting keeps the number of postings |
| QGramIndex.FoldStep | sheet-06/qgram_index.py:129-134 | one more posting adds its count to the last merged one with its id, or is appended |
| QGramIndex.MergeSorted | sheet-06/qgram_index.py:127-134 | the loop folds the sorted postings, one per id, and counts them |
| QGramIndex.ComputeQGramsExample | sheet-06/qgram_index.py:102-104 | the doctest: the q-grams of "freiburg" for q = 3 |
| QGramIndex.RankMatches | sheet-06/qgram_index.py:216-231 | a permutation of the matches, ascending by PED and then descending by score |
| QGramIndex.RankMatchesStable | sheet-06/qgram_index.py:231 | matches with the same PED and score keep their order (Python's sort is stable) |
| QGramIndex.RankExampleTwo | sheet-06/qgram_index.py:227-228 | a step of the doctest's sort |
| QGramIndex.RankExampleFirst | sheet-06/qgram_index.py:227-228 | a step of the doctest's sort |
| QGramIndex.RankExampleLast | sheet-06/qgram_index.py:227-228 | a step of the doctest's sort |
| QGramIndex.RankInsertTwo | sheet-06/qgram_index.py:227-228 | a step of the doctest's sort |
| QGramIndex.RankMatchesExample | sheet-06/qgram_index.py:226-228 | the doctest of `rank_matches` |
| QGramSearch.NameDocs | sheet-06/qgram_index.py:82-87 | one padded q-gram list per normalised name |
| QGramSearch.NameDocsAt | sheet-06/qgram_index.py:82-87 | the document of name n is the padded q-grams of its normal form |
| QGramSearch.GramLists | sheet-06/qgram_index.py:167-170 | at most one list per q-gram of the prefix |
| QGramSearch.CountInAppend | sheet-06/qgram_index.py:168-172 | one more q-gram of a name adds its occurrences in the prefix |
| QGramSearch.CountInShared | sheet-06/qgram_index.py:162-178 | counting every pair of equal q-grams is at least counting the name's q-grams that occur in the prefix |
| QGramSearch.GramListsSum | sheet-06/qgram_index.py:87-170 | the prefix's lists hold, for name n, the number of pairs of equal q-grams between prefix and name |
| QGramSearch.GramListSum | sheet-06/qgram_index.py:87-96 | the list of a q-gram holds its number of occurrences in name n |
| QGramSearch.SumOverListsAppend | sheet-06/qgram_index.py:167-170 | counts over lists add up over concatenation |
| QGramSearch.IdsInAppend | sheet-06/qgram_index.py:129 | name ids stay in range over concatenation |
| QGramSearch.IndexListIds | sheet-06/qgram_index.py:80-96 | every id on an index list is a name id |
| QGramSearch.GramListsIds | sheet-06/qgram_index.py:167-170 | every list of the prefix is an index list, with name ids 1..n |
| QGramSearch.PrefixMergedIds | sheet-06/qgram_index.py:172 | every merged id is a name id |
| QGramSearch.PrefixMergedCount | sheet-06/qgram_index.py:172 | the merged count of name n is the number of pairs of equal q-grams |
| QGramSearch.PrefixMergedBound | sheet-06/qgram_index.py:162-178 | the count filter: a name within PED d of the prefix has merged count at least len(x) - q*d |
| QGramSearch.PedsOf | sheet-06/qgram_index.py:180 | one PED per normalised name |
| QGramSearch.PedsOfAt | sheet-06/qgram_index.py:180 | the PED table entry of name n is the PED of the prefix to its normal form |
| QGramSearch.Candidates | sheet-06/qgram_index.py:176-185 | at most one candidate per merged posting |
| QGramSearch.CandidatesSound | sheet-06/qgram_index.py:178-184 | every candidate comes from a posting reaching the threshold with PED at most delta |
| QGramSearch.CandidatesComplete | sheet-06/qgram_index.py:178-184 | every such posting gives a candidate |
| QGramSearch.PedCalls | sheet-06/qgram_index.py:178-181 | at most one PED computation per posting |
| QGramSearch.PrefixStep | sheet-06/qgram_index.py:176-185 | one more posting extends the candidates and the PED count |
| QGramSearch.FirstPerEntity | sheet-06/qgram_index.py:193-198 | at most one kept per candidate; the last kept has the last candidate's entity |
| QGramSearch.FirstPerEntityPrefix | sheet-06/qgram_index.py:195-196 | a prefix of the candidates gives a prefix of the kept ones |
| QGramSearch.FirstPerEntityFrom | sheet-06/qgram_index.py:195-196 | every kept candidate is a candidate |
| QGramSearch.FirstPerEntityAscending | sheet-06/qgram_index.py:190-198 | on candidates sorted by (entity, PED), the kept entities strictly ascend |
| QGramSearch.FirstPerEntityCovers | sheet-06/qgram_index.py:190-198 | on sorted candidates, every candidate's entity is kept with a PED no larger |
| QGramSearch.FirstPerEntityLast | sheet-06/qgram_index.py:195-196 | the last kept candidate has no larger PED than the last candidate |
| QGramSearch.EntityScores | sheet-06/qgram_index.py:197-198 | one score per entity |
| QGramSearch.EntityScoresAt | sheet-06/qgram_index.py:197-198 | the score of entity e is `int(entities[e-1][1])` |
| QGramSearch.ToMatches | sheet-06/qgram_index.py:193-198 | a result that reads has one match per kept candidate |
| QGramSearch.ToMatchesOk | sheet-06/qgram_index.py:197-198 | when every score reads, each match is its candidate with the entity's score |
| QGramSearch.ToMatchesFailAt | sheet-06/qgram_index.py:197-198 | a kept candidate whose score cannot be read makes the result fail |
| QGramSearch.ToMatchesFailWitness | sheet-06/qgram_index.py:197-198 | a failing result names a kept candidate whose score cannot be read |
| QGramSearch.ToMatchesFailPrefix | sheet-06/qgram_index.py:195-198 | once a prefix fails, the whole result fails the same way |
| QGramSearch.KeptSound | sheet-06/qgram_index.py:176-198 | a kept candidate comes from a posting passing both checks |
| QGramSearch.KeptEntities | sheet-06/qgram_index.py:184-197 | kept entities are entity ids |
| QGramSearch.KeptCovers | sheet-06/qgram_index.py:176-198 | every posting passing both checks has its entity kept, with no larger PED |
| QGramSearch.KeptFailAt | sheet-06/qgram_index.py:197-198 | a passing posting whose entity's score cannot be read gives a kept candidate with that score |
| QGramSearch.PipelineSound | sheet-06/qgram_index.py:176-200 | each result comes from a posting passing both checks, with its entity, PED and score |
| QGramSearch.PipelineAscending | sheet-06/qgram_index.py:190-200 | the results have strictly ascending entities |
| QGramSearch.PipelineBest | sheet-06/qgram_index.py:190-200 | every posting passing both checks has its entity among the results with no larger PED |
| QGramSearch.PipelineFailWitness | sheet-06/qgram_index.py:197-198 | a failing result names a passing posting whose entity's score cannot be read |
| QGramSearch.PipelineFailAt | sheet-06/qgram_index.py:197-198 | such a posting makes the result fail |
| QGramSearch.PrefixMergedIsMerge | sheet-06/qgram_index.py:113-172 | the merged list is strictly ascending, one posting per name, counting the pairs of equal q-grams |
| QGramSearch.MergeBound | sheet-06/qgram_index.py:162-178 | on any such merge, a name within PED d has count at least len(x) - q*d |
| QGramSearch.PostingOf | sheet-06/qgram_index.py:131-134 | in a strictly ascending list, the posting of an id carries its whole count |
| QGramSearch.PipelineSoundFor | sheet-06/qgram_index.py:176-200 | soundness stated by the name's total count |
| QGramSearch.PipelineBestFor | sheet-06/qgram_index.py:176-200 | best-PED coverage stated by name id and total count |
| QGramSearch.IdAt | sheet-06/qgram_index.py:131-134 | the id at a position of a strictly ascending list carries its whole count |
| QGramSearch.FailingId | sheet-06/qgram_index.py:197-198 | the name id and total count of a failing posting |
| QGramSearch.PipelineFailWitnessFor | sheet-06/qgram_index.py:197-198 | the failure witness stated by name id and total count |
| QGramSearch.PassingPosting | sheet-06/qgram_index.py:176-178 | the posting of a passing name id |
| QGramSearch.FailingPosting | sheet-06/qgram_index.py:197-198 | the posting of a passing name id whose score cannot be read |
| QGramSearch.PipelineFailFor | sheet-06/qgram_index.py:197-198 | a passing name whose score cannot be read makes the result fail |
| QGramSearch.TablesAt | sheet-06/qgram_index.py:180-197 | the PED and score table entries of name n |
| QGramSearch.FromNameOf | sheet-06/qgram_index.py:176-198 | a result's fields spelled out: name id, entity, PED within delta, count and score |
| QGramSearch.FindMatchesSound | sheet-06/qgram_index.py:140-200 | every result is a name within PED delta of the prefix whose count reached the threshold, with its entity, PED and score |
| QGramSearch.FindMatchesAscending | sheet-06/qgram_index.py:190-200 | one result per entity, entities ascending |
| QGramSearch.MergeHolds | sheet-06/qgram_index.py:162-178 | when len(x) > q*delta, a name within PED delta is merged with a count reaching the threshold |
| QGramSearch.FindMatchesComplete | sheet-06/qgram_index.py:140-200 | when len(x) > q*delta, every name within PED delta has its entity among the results with no larger PED |
| QGramSearch.FindMatchesFailWitness | sheet-06/qgram_index.py:197-198 | the search raises only for a passing name whose entity's score is missing or not an integer |
| QGramSearch.FindMatchesFailAt | sheet-06/qgram_index.py:197-198 | such a name makes the search raise |
| QGramSearch.FindMatchesMisses | sheet-06/qgram_index.py:162-178 | with a threshold below 1 (prefix "ab", q = 3, delta = 1) the name "cb" is within PED 1 but shares no q-gram and is not found |
| QGramSearch.NoListsForAb | sheet-06/qgram_index.py:167-170 | no q-gram of "ab" is on the lists of the index of "cb" |
| QGramSearch.PedCbAb | sheet-06/qgram_index.py:180 | the PED of "ab" to "cb" is 1 |
| QGramSearch.NoSharedGram | sheet-06/qgram_index.py:87-168 | "ab" and "cb" share no padded 3-gram |
| QGramDraft.Ones | sheet-05/qgram_index.py:86 | c postings (id, 1) |
| QGramDraft.AppendOneGet | sheet-05/qgram_index.py:80-86 | one q-gram occurrence appends (id, 1) to its list, creating it when new, and leaves the other lists |
| QGramDraft.AppendAllGet | sheet-05/qgram_index.py:79-86 | the q-grams of an entity append (id, 1) once per occurrence to each list |
| QGramDraft.AppendIndexSpec | sheet-05/qgram_index.py:65-86 | the draft's lists are the reference lists, one (n, 1) per occurrence in entity n, and a q-gram has a list exactly when some entity holds it |
| QGramDraft.OnesSums | sheet-05/qgram_index.py:86 | c postings (id, 1) sum to c for id and 0 for any other |
| QGramDraft.OnesIds | sheet-05/qgram_index.py:86 | the ids of c postings (id, 1) |
| QGramDraft.OnesForSums | sheet-05/qgram_index.py:46-86 | summing a draft list for entity n gives the number of occurrences of the q-gram in n (the frequency the docstring promises) |
| QGramDraft.OnesForIds | sheet-05/qgram_index.py:46-86 | a draft list has the ids of the counting list |
| QGramDraft.OnesForRange | sheet-05/qgram_index.py:44-86 | every id in a draft list is an entity number |
| QGramDraft.OnesForAscending | sheet-05/qgram_index.py:86 | the ids of a draft list never go down |
| QGramDraft.OnesForFold | sheet-05/qgram_index.py:46-86 | summing up a draft list gives the counting list, one (n, frequency) per entity |
| QGramDraft.Reads | sheet-05/qgram_index.py:67-77 | one read per entity line |
| QGramDraft.GoodEntities | sheet-05/qgram_index.py:67-77 | the leading lines read as entities, up to the first one that raises |
| QGramDraft.GoodNext | sheet-05/qgram_index.py:67-77 | reading goes on past a line read as an entity |
| QGramDraft.GoodStop | sheet-05/qgram_index.py:72-77 | reading stops at the first line that raises |
| QGramDraft.ReadOnAfter | sheet-05/qgram_index.py:72-86 | line i read on top of the entities before it |
| QGramDraft.Names | sheet-05/qgram_index.py:75-76 | one normalised name per entity read |
| QGramDraft.Scores | sheet-05/qgram_index.py:77 | one score per entity read |
| QGramDraft.PrefixLengths | sheet-05/qgram_index.py:76-77 | as many names and scores as entities read |
| QGramDraft.EntitiesStep | sheet-05/qgram_index.py:75-77 | one more entity appends its name and its score |
| QGramDraft.NameDocsStep | sheet-05/qgram_index.py:79 | one more name adds its padded q-grams |
| QGramDraft.DocsStep | sheet-05/qgram_index.py:79-86 | one more entity appends its q-gram occurrences to the lists |
| QGramDraft.GramStep | sheet-05/qgram_index.py:79-86 | the q-grams of a name are appended one at a time, new ones last in key order |
| QGramDraft.FirstSeenStep | sheet-05/qgram_index.py:80-82 | a new q-gram becomes the last key |
| QGramDraft.TallyStep | sheet-05/qgram_index.py:139-144 | one more posting adds its count to its id's entry, created when the id is new |
| QGramDraft.Items | sheet-05/qgram_index.py:145 | the (id, count) items in key order |
| QGramDraft.TallyMerged | sheet-05/qgram_index.py:138-146 | sorting the items of the dictionary of all postings gives the merged list |
| QGramDraft.FlattenPrefixStep | sheet-05/qgram_index.py:139-140 | the postings of one more list follow those before |
| QGramDraft.DraftListsSum | sheet-05/qgram_index.py:169-174 | the lists of the prefix's keys hold, for entity n, the occurrences of those keys in it |
| QGramDraft.DraftListsIds | sheet-05/qgram_index.py:169-174 | every id on those lists is an entity |
| QGramDraft.SumCountNone | sheet-05/qgram_index.py:171-173 | an empty name has no occurrence |
| QGramDraft.SumCountAppend | sheet-05/qgram_index.py:171-173 | one more q-gram of the name adds its key occurrences when it is a q-gram of the prefix |
| QGramDraft.SumCountShared | sheet-05/qgram_index.py:171-173 | over distinct keys, each position of the name whose q-gram is one of the prefix's counts once |
| QGramDraft.DraftKeys | sheet-05/qgram_index.py:80-82 | every key of the key order has a list |
| QGramDraft.DraftMergedCount | sheet-05/qgram_index.py:169-174 | the merged count of entity n is the number of q-grams of its name that are q-grams of the prefix |
| QGramDraft.DraftMergedIds | sheet-05/qgram_index.py:145-174 | the merged list is strictly ascending with entity ids |
| QGramDraft.MergedIdsIn | sheet-05/qgram_index.py:138-146 | merging keeps the ids of the lists |
| QGramDraft.VerifiedSound | sheet-05/qgram_index.py:176-182 | every reported triple comes from a posting that reached the threshold, with PED at most delta and the entity's score |
| QGramDraft.VerifiedComplete | sheet-05/qgram_index.py:176-182 | every posting passing both checks is reported |
| QGramDraft.DraftSearchSound | sheet-05/qgram_index.py:148-183 | every entity found is within PED delta, with its PED and score, and shares at least len(x) - q*delta q-grams with the prefix |
| QGramDraft.MergedSound | sheet-05/qgram_index.py:169-182 | a verified triple names an entity sharing at least the threshold |
| QGramDraft.DraftSearchComplete | sheet-05/qgram_index.py:148-183 | when len(x) > q*delta, every entity within PED delta is found |
| QGramDraft.DocShares | sheet-05/qgram_index.py:177-178 | by the count filter, a name within PED delta shares at least len(x) - q*delta q-grams |
| QGramDraft.MergedComplete | sheet-05/qgram_index.py:174-182 | a name sharing t >= 1 q-grams within PED delta is verified |
| QGramDraft.MergedHas | sheet-05/qgram_index.py:176-178 | an id whose sum reaches a positive bound has its posting |
| QGramDraft.DraftSearchMisses | sheet-05/qgram_index.py:169-183 | with a threshold below 1, "cb" is within PED 1 of "ab" (q = 3, delta = 1) but is not found |
| QGramDraft.NoListForAb | sheet-05/qgram_index.py:169-174 | no list is fetched for the q-grams of "ab" over the index of "cb" |
| QGramDraft.DraftListsNone | sheet-05/qgram_index.py:171-173 | no key among the prefix's q-grams, no list |
| QGramDraft.DraftSearchUnfold | sheet-05/qgram_index.py:169-183 | the search over the lists and key order of the built draft |
| QGramDraft.VerifyMerged | sheet-05/qgram_index.py:175-183 | the loop reports the verified triples |
| QGramDraft.RankFound | sheet-05/qgram_index.py:185-202 | the two sorts permute the triples |
| QGramDraft.RankFoundSorted | sheet-05/qgram_index.py:200-201 | the two stable sorts rank by PED, and equal PEDs by score, highest first |
| QGramDraft.RankFoundPair | sheet-05/qgram_index.py:200-201 | any two ranked triples are in that order |
| QGramDraft.RankFoundStable | sheet-05/qgram_index.py:200-201 | triples with equal PED and score keep their order |
| QGramDraft.Finer | sheet-05/qgram_index.py:200-201 | equal PED and score means equal on each sort key |
| QGramDraft.ByScoreTwo | sheet-05/qgram_index.py:196-200 | a step of the doctest's first sort |
| QGramDraft.ByScoreThree | sheet-05/qgram_index.py:196-200 | a step of the doctest's first sort |
| QGramDraft.ByScoreFour | sheet-05/qgram_index.py:196-200 | the doctest's first sort |
| QGramDraft.ByPedTwo | sheet-05/qgram_index.py:196-201 | a step of the doctest's second sort |
| QGramDraft.ByPedThree | sheet-05/qgram_index.py:196-201 | a step of the doctest's second sort |
| QGramDraft.ByPedLast | sheet-05/qgram_index.py:196-201 | a step of the doctest's second sort |
| QGramDraft.ByPedInsertTwo | sheet-05/qgram_index.py:196-201 | a step of the doctest's second sort |
| QGramDraft.RankFoundExample | sheet-05/qgram_index.py:195-197 | the doctest of `rank_matches` |
| QGramDraft.QGramDraft.constructor | sheet-05/qgram_index.py:26-35 | a new draft has its q, no lists, no names and no scores |
| QGramDraft.QGramDraft.MergeLists | sheet-05/qgram_index.py:120-146 | the dictionary loop and the sort return the merged list |
| QGramDraft.QGramDraft.FindMatches | sheet-05/qgram_index.py:148-183 | the result is the reference draft search |
| QGramDraft.QGramDraft.CollectLists | sheet-05/qgram_index.py:169-173 | the lists of the keys that are q-grams of the prefix, in key order |
| QGramDraft.QGramDraft.ComputeQGrams | sheet-05/qgram_index.py:104-118 | the loop returns the padded q-grams |
| QGramDraft.QGramDraft.AddGrams | sheet-05/qgram_index.py:79-86 | (id, 1) appended per occurrence, new q-grams last in key order |
| QGramDraft.QGramDraft.AddEntity | sheet-05/qgram_index.py:72-86 | fewer than three fields raises ValueError before anything is appended; a non-integer score raises after the name was appended; otherwise the entity is indexed |
| QGramDraft.QGramDraft.IndexEntity | sheet-05/qgram_index.py:77-86 | the score is appended, then the q-grams of the name are indexed |
| QGramDraft.QGramDraft.BuildFromLines | sheet-05/qgram_index.py:40-86 | the header is skipped, line i is entity i, and reading stops at the first line that raises |
| QGramDraft.QGramDraft.ReadEntities | sheet-05/qgram_index.py:67-86 | the line loop leaves the names and scores of the leading entity lines and the error |
| QGramDraft.QGramDraft.ReadStep | sheet-05/qgram_index.py:67-86 | one pass of the line loop |
| Sparql.VarOcc | sheet-12/sparql_to_sql.py:101-133 | every variable recorded in `var_occ` has at least one column |
| Sparql.TripleConds | sheet-12/sparql_to_sql.py:112-138 | every triple adds at least its predicate condition |
| Sparql.Conditions | sheet-12/sparql_to_sql.py:103-138 | at least one WHERE condition per triple |
| Sparql.SparqlToSql | sheet-12/sparql_to_sql.py:27-149 | the method returns the reference translation of the query, or the error Python raises |
| Sparql.ParseQuery | sheet-12/sparql_to_sql.py:70-93 | keyword positions in the lower-cased query, variables, triples and LIMIT, as the reference parse |
| Sparql.ParseTripleTexts | sheet-12/sparql_to_sql.py:82-89 | each `.`-separated chunk is matched against the triple pattern; a chunk that does not match is an AttributeError |
| Sparql.TranslateTriples | sheet-12/sparql_to_sql.py:95-138 | the loop builds FROM, WHERE and `var_occ` as the reference clauses |
| Sparql.SelectList | sheet-12/sparql_to_sql.py:140-143 | SELECT lists the first column of each variable, or the IndexError / KeyError |
| Sparql.AddTriple | sheet-12/sparql_to_sql.py:104-138 | one triple adds its conditions to WHERE and updates `var_occ` |
| Sparql.AddSubject | sheet-12/sparql_to_sql.py:114-123 | a variable subject is joined to its first column when seen before, and recorded |
| Sparql.AddObject | sheet-12/sparql_to_sql.py:125-138 | under a variable subject, a variable object is joined and recorded, a constant object matched as a string |
| Sparql.ParseTriplesFail | sheet-12/sparql_to_sql.py:84-86 | a chunk that does not match makes the parse fail with AttributeError |
| Sparql.ParseTriplesFailIsAttribute | sheet-12/sparql_to_sql.py:85-86 | the only failure of the triple parse is AttributeError |
| Sparql.FromStep | sheet-12/sparql_to_sql.py:104-109 | one more triple adds `wikidata as t<i>`, after `, ` except for the first |
| Sparql.WhereStep | sheet-12/sparql_to_sql.py:103-138 | one more triple extends `var_occ` and WHERE by its conditions |
| Sparql.StepOccColumns | sheet-12/sparql_to_sql.py:114-133 | one triple appends exactly its occurrences of a variable to that variable's columns |
| Sparql.VarOccSpec | sheet-12/sparql_to_sql.py:101-133 | `var_occ` records exactly the variables that occur, each with all its columns in query order (objects only under a variable subject) |
| Sparql.TripleCondsSpec | sheet-12/sparql_to_sql.py:112-138 | a triple adds its predicate condition; a variable subject seen before joins to its first column; under a variable subject a variable object joins to its first column or a constant object is matched; a constant subject adds nothing else |
| Sparql.PredicateCondsPresent | sheet-12/sparql_to_sql.py:112 | every triple's predicate condition is in WHERE |
| Sparql.SelectColumnsSpec | sheet-12/sparql_to_sql.py:140-143 | no variable is an IndexError, a variable that never occurs a KeyError, otherwise each variable's first column |
| Sparql.MatchTripleSound | sheet-12/sparql_to_sql.py:23-88 | a matching chunk yields three non-empty terms without whitespace |
| Sparql.MatchTripleOf | sheet-12/sparql_to_sql.py:24 | at most one leading whitespace character is skipped |
| Sparql.MatchTermsOf | sheet-12/sparql_to_sql.py:24 | three whitespace-separated terms match, whatever follows |
| Sparql.MatchTripleFails | sheet-12/sparql_to_sql.py:24-86 | a chunk with two leading whitespace characters, or only whitespace, does not match |
| Sparql.TrailingDotFails | sheet-12/sparql_to_sql.py:82-86 | a trailing `.` leaves an empty last chunk and the query fails with AttributeError |
| Sparql.QueryShape | sheet-12/sparql_to_sql.py:71-93 | `SELECT <vars> WHERE {<body>}`: the variables are the words of vars, the WHERE text is the body, no LIMIT |
| Sparql.LimitShape | sheet-12/sparql_to_sql.py:71-93 | `SELECT <vars> WHERE {<body>} LIMIT <lim>` with no `}` in lim: the variables are the words of vars, the WHERE text is the body (rfind stops at the last `}`), and the LIMIT is lim stripped |
| Sparql.ParseWithLimit | sheet-12/sparql_to_sql.py:70-93 | such a query parses into the words of vars, the triples of the body and Some of the stripped LIMIT text |
| Sparql.LimitExampleParse | sheet-12/sparql_to_sql.py:70-93 | `SELECT ?x WHERE { ?x p ?y } LIMIT 10` parses into ?x, its one triple and LIMIT "10" |
| Sparql.ExampleQueryShape | sheet-12/sparql_to_sql.py:41-47 | the doctest query in its parts |
| Sparql.ExampleSplit | sheet-12/sparql_to_sql.py:82 | the doctest's WHERE text splits at `.` into its five triple texts |
| Sparql.ExampleChunks | sheet-12/sparql_to_sql.py:84-89 | the doctest's chunks match its five triples |
| Sparql.ExampleVariables | sheet-12/sparql_to_sql.py:76 | the doctest's variables are ?x and ?y |
| Sparql.ExampleParse | sheet-12/sparql_to_sql.py:70-93 | the doctest query parses into ?x, ?y, its five triples and no LIMIT |
| Sparql.ExampleSelect | sheet-12/sparql_to_sql.py:140-143 | the doctest's variables sit at t0.subject and t2.object |
| Sparql.SqlNoLimit | sheet-12/sparql_to_sql.py:145-149 | without LIMIT the SQL is SELECT, FROM and WHERE and `;` |
| Sparql.SqlLimit | sheet-12/sparql_to_sql.py:145-149 | a LIMIT only inserts ` LIMIT <l>` before the final `;`; the translation fails exactly when it fails without the LIMIT, with the same error |
| Sparql.LimitExampleSql | sheet-12/sparql_to_sql.py:97-149 | the one-triple query with LIMIT 10 gives `SELECT t0.subject FROM wikidata as t0 WHERE t0.predicate="p" LIMIT 10;` |
| Sparql.LimitExample | sheet-12/sparql_to_sql.py:70-149 | `sparql_to_sql` of `SELECT ?x WHERE { ?x p ?y } LIMIT 10` is that SQL, ending in ` LIMIT 10;` |
| Sparql.ExampleSql | sheet-12/sparql_to_sql.py:95-149 | the SQL of the parsed doctest query |
| Sparql.ExampleTranslation | sheet-12/sparql_to_sql.py:40-66 | the doctest: German politicians whose spouses share a birthplace translate to the five-way self-join shown |
| SearchServer.HandleHttp | sheet-06/search_server.py:120-145 | a failing call is the UnboundLocalError of an unknown code |
| SearchServer.HandleHttpCodes | sheet-06/search_server.py:126-134 | a response is produced exactly for the codes 200, 403, 404 and 418 |
| SearchServer.HandleHttpErrorBody | sheet-06/search_server.py:136-137 | for a code of 400 or more the content is ignored and the body is the reason phrase |
| SearchServer.ReadHeaderRoundTrip | sheet-06/search_server.py:139-143 | a client reads back the code, reason phrase, Content-Length and Content-Type the header was written with |
| SearchServer.HandleHttpFraming | sheet-06/search_server.py:139-145 | a response is the encoded header followed by exactly the body, whose length the header's Content-Length states |
| SearchServer.PyAt | sheet-06/search_server.py:114-115 | Python list indexing: defined exactly for -len <= k < len, and the element itself for a non-negative k |
| SearchServer.DropLastChar | sheet-06/search_server.py:115 | `[:-1]` drops the last character, and leaves an empty string empty |
| SearchServer.Top5 | sheet-06/search_server.py:112 | `[:5]` is the first min(5, len) matches |
| SearchServer.Top5Best | sheet-06/search_server.py:112 | the shown matches are the first five of the ranking, and none of the others ranks before them |
| SearchServer.ParagraphFields | sheet-06/search_server.py:113-115 | a match of an entity with three fields renders; one with fewer raises IndexError |
| SearchServer.ParagraphRenders | sheet-06/search_server.py:113-115 | one match renders exactly when the indexing it needs succeeds |
| SearchServer.ParagraphsOk | sheet-06/search_server.py:111-115 | the page renders exactly when every shown match renders |
| SearchServer.ParagraphsError | sheet-06/search_server.py:111-115 | a rendering that fails raises IndexError |
| SearchServer.ParagraphsFailFrom | sheet-06/search_server.py:111-115 | the first failing match ends the loop, and its error is the page's |
| SearchServer.QueryDeltaThreshold | sheet-06/search_server.py:107-108 | with q at most 3, a non-empty query's count-filter threshold with delta = len/4 is at least 1 |
| SearchServer.HandleQueryComplete | sheet-06/search_server.py:107-112 | every entity with a name within PED len/4 of the normalised query is found at that PED or less |
| SearchServer.RenderTop | sheet-06/search_server.py:111-115 | the loop's `res_top` is the concatenated paragraphs, or the first IndexError |
| SearchServer.Respond | sheet-06/search_server.py:111-118 | the five best of the ranking, rendered and encoded |
| SearchServer.SearchServer.constructor | sheet-06/search_server.py:77-80 | the port is stored, at most 1024 bytes are read and there is no index yet |
| SearchServer.SearchServer.QGramBuildFromLines | sheet-06/search_server.py:82-95 | a fresh index with the given q and synonym flag, built from the file's lines |
| SearchServer.SearchServer.HandleQuery | sheet-06/search_server.py:97-118 | the response is the reference handling of the query on the server's index, the index is kept, and the `merges` and `ped_calcs` statistics are those of `find_matches` on the normalised query with delta = len/4 |

## Left out

- Opening files, `input()`, the `main` blocks and the command-line loops are not modelled. A file is the sequence of its lines.
- The socket loop `run` of sheet-06/search_server.py is not modelled. A response is the byte string the server would send.
- sheet-07 (the search server and its JavaScript front end), sheet-09 and sheet-13 are not part of this model.
- The timing statistics (`time.monotonic`, `merge_time`, `ped_time`) are not modelled. Only the counters beside them are: `merges` and `ped_calcs`.
- The PED routines imported from `ped_c` and `ped_python` are not part of this model. `PrefixEditDistance.Ped` is the reference definition they are expected to compute: the least edit distance from the prefix to a prefix of the name. The delta argument, which lets them stop early, is ignored.
- q = 0 is excluded: every q-gram operation requires q >= 1.
- QGramIndex.Normalize: lower-casing and `isalnum` are the ASCII ones, where Python uses the Unicode tables. The same holds for the sheet-05 normalisation in QGramDraft, for the words of NaiveBayes.Words (`\W` and `lower()`), and for Strings.Lower and Strings.IsAlnum.
- Strings.ParseInt: `int()` is modelled on ASCII digits only. It rejects the `_` digit separators and the Unicode digits that Python accepts.
- ScoredIndex.UnionScore, the Evaluation precisions (Evaluation.PrecisionAtK, Evaluation.AveragePrecision), the Bm25Index average document length and scores, and NaiveBayesClassifier.RatioSpec and NaiveBayesClassifier.F1Between: all of these use exact `real` arithmetic where Python uses binary floating point. Rounding is not modelled.
- Bm25Index.InvertedIndex.BuildFromLines: the BM25 formula (its `log` and the k = infinity branch) is a `Scorer` parameter. Only the structure of the second pass is proved: ids and lengths kept, only the scores replaced.
- Bm25Index.InvertedIndex.BuildFromLines: it takes b and k as arguments, so the `NameError` that the defaults `DEFAULT_B`/`DEFAULT_K` raise, and the default arguments themselves, are not modelled.
- Bm25Index.InvertedIndex.BuildFromLines, QGramIndex.QGramIndex.BuildFromLines and QGramDraft.QGramDraft.BuildFromLines: all three require an empty index. A second build on the same object, which the source allows and which would continue the id numbering, is not modelled.
- `l2normalize_cols` and the numpy/scipy parts of `preprocessing_vsm` and `process_query_vsm` are not modelled: the sparse matrix, the matrix product, and the sort and hit rates of the results. The triplets and the early returns are modelled.
- `train` in sheet-10/naive_bayes.py computes the log probabilities `p_wc` and `p_c` with numpy and is not modelled. Prediction takes the score matrix `x · p_wcᵀ` (sheet-10/naive_bayes.py:199) as its input; as in the source, the log prior `p_c` is not added to it.
- `process_sql_query` in sheet-12/sparql_to_sql.py runs SQLite and is not modelled.
- `process_query` of sheet-02/inverted_index.py and `evaluate` of sheet-02/evaluate.py are empty stubs in the source and have nothing to model.
- QGramSearch.FindMatchesComplete: the "finds all entities with PED <= delta" promise is proved only when len(x) > q*delta, i.e. when the threshold is at least 1. Below that, a name sharing no q-gram with the prefix is never merged, so it is missed even within delta: QGramSearch.FindMatchesMisses shows prefix "ab", the name "cb", q = 3 and delta = 1. SearchServer.QueryDeltaThreshold shows that the server's delta = len/4 with q <= 3 always gives a threshold of at least 1.
- QGramDraft.DraftSearchComplete: the same limit for the sheet-05 search, with QGramDraft.DraftSearchMisses as the counterexample.
- The doctests of `find_matches`, `build_from_file`, `qgram_build_from_file` and `handle_query` read the file test.tsv, which is not part of this model. The doctests that need no file are proved as lemmas, e.g. the merges, `normalize`, `compute_qgrams` and the SPARQL translation.

## Findings

| source | as written | input that shows it | evidently intended | confidence | as-written member | corrected member |
|---|---|---|---|---|---|---|
| sheet-10/naive_bayes.py:202-210 | `predict` compares each column with `p_max` but never updates `p_max`, so the label is the last column whose score exceeds column 0's | the score row [0.0, 2.0, 1.0] is labelled 2, and `evaluate` (line 232) scores these labels | the column of highest score (the docstring's prediction from the learned probabilities): 1 | not executed | NaiveBayesClassifier.PredictAsWrittenMisses | NaiveBayesClassifier.ArgMaxSpec |
| sheet-10/naive_bayes.py:103 | `read_labeled_data` uses the raw line index as the row of each triplet, while the matrix has one row per kept line (line 108) | lines "x TAB foo" and "a TAB foo" with class vocabulary {a: 0} and word vocabulary {foo: 0}: the second line's cell lands in row 1 of a one-row matrix, and building the matrix raises ValueError | the row is the index among the kept lines, giving the one-row matrix with entry (0, 0) = 1 | not executed | NaiveBayes.ReadLabeledDataAsWritten | NaiveBayes.LabeledDataSpec |

The rest of the model uses the corrected behaviour:
NaiveBayesClassifier.Evaluate scores the labels of NaiveBayesClassifier.Predict, and NaiveBayes.ReadLabeledData numbers rows among the kept lines.
The as-written behaviour is modelled beside each one: NaiveBayesClassifier.PredictAsWritten, and the `LineIndex` row rule of `NaiveBayes.LabeledData`.
