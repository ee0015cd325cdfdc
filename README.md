# N-gram add-on: term counting and date series

This project models the counting and aggregation core of a DocumentCloud add-on that
charts how often one or two terms occur in a set of documents over time. It has three
parts, one Dafny module each:

- `TermCount` (`term_count.dfy`): `get_str_count`. It counts the matches of the
  pattern `\b` + escape(term) + `\b` as `re.findall` finds them. The scan runs left to
  right. At each position it tests for a literal occurrence of the term with a word
  boundary at both ends. After a match it resumes past the match; otherwise it moves
  on by one position.
- `Series` (`series.dfy`): `make_df`. The four per-document lists are zipped into rows
  (as many as the shortest list), each timestamp is reduced to its calendar date, and
  the rows are sorted ascending by date.
- `NGramAddOn` (`ngram.dfy`): `main` and its helper `process_doc`. A class `NGram` holds
  the two lower-cased terms and the four parallel lists (dates, first-term counts,
  second-term counts, titles). `Run` (the model of `main`) reads the terms from the request data and
  lower-cases them. It picks the documents: the id list if it is non-empty, else the
  query if that is non-empty, else none. It processes each document, one entry per
  list, and builds the table.

Two behaviours of the code that a reader might not expect, both kept by the model:

- An empty term does not count 0. The pattern `\b\b` matches an empty string at every
  word boundary, once per position, so `GetStrCount("", "a") == 2`
  (`TermCount.EmptyTermCountsBoundaries`).
- The sort is pandas' default `sort_values`, which is not stable. The model therefore
  claims only that the table is sorted by date and is a permutation of the zipped
  rows; it makes no claim about the order of rows sharing a date. What is proved
  instead is that the date column comes out the same for every way of breaking
  ties (`Series.DateColumnIsDetermined`).

A term ending in a non-word character (such as `c++`) only matches when a word
character follows it, since `\b` then needs one on its right
(`TermCount.NonWordEndNeedsWordAfter`). That is how the code behaves and the model
keeps it.

## Model

| member | source | states |
|---|---|---|
| `TermCount.MatchesFrom` | main.py:20-21 | every reported position is a whole-word literal match at or after the start, and the reported matches are in increasing order and do not overlap |
| `TermCount.MatchesFromComplete` | main.py:20-21 | every match the scan does not report lies inside the span of a reported match that starts before it (leftmost-first scanning) |
| `TermCount.MatchesFromBound` | main.py:21 | for a non-empty term, a scan from p reports at most one match per term length of the remaining text |
| `TermCount.EmptyTermBound` | main.py:21 | for the empty term, a scan from p reports at most one empty match per remaining position |
| `TermCount.GetStrCount` | main.py:18-21 | the count is non-negative; for a non-empty term, count times term length is at most the text length; the count never exceeds the text length plus one |
| `TermCount.CountIsLeftmostNonOverlapping` | main.py:20-21 | the count is the number of non-overlapping, leftmost-first occurrences of the term whose start and end are both word boundaries |
| `TermCount.NoMatchIffZero` | main.py:20-21 | the count is zero exactly when the pattern matches at no position |
| `TermCount.GluedOccurrenceIsNoMatch` | main.py:20 | an occurrence glued to a word character on either side (with a word character at that end of the term) is not a match and is not counted |
| `TermCount.NonWordEndNeedsWordAfter` | main.py:20 | a match of a term ending in a non-word character is always followed by a word character |
| `TermCount.PineappleHasNoApple` | main.py:20-21 | "apple" inside "pineapple" is counted 0 times |
| `TermCount.DotIsLiteral` | main.py:20 | the escaped `.` matches only a literal dot: "a.b" is counted 0 times in "axb" and matches "a.b" |
| `TermCount.EmptyTermCountsBoundaries` | main.py:20-21 | the empty term counts one empty match per word boundary: 2 in "a" |
| `Series.Zip` | main.py:25-26 | the zip has as many rows as the shortest list, and row i holds title i, both counts i and the calendar date of timestamp i |
| `Series.Insert` | main.py:32 | inserting into a date-sorted table keeps it sorted and adds exactly that row |
| `Series.SortByDate` | main.py:32 | the output is sorted ascending by date and is a permutation of the input |
| `Series.MakeDf` | main.py:23-33 | one row per zipped index, sorted ascending by calendar date, and exactly the zipped rows as a multiset |
| `Series.DateColumnMultiset` | main.py:32 | two tables holding the same rows hold the same dates with the same multiplicities |
| `Series.SortedDatesUnique` | main.py:32 | two ascending date sequences with the same dates are equal |
| `Series.DateColumnIsDetermined` | main.py:32 | every date-sorted permutation of the same rows has the same date column, whatever the tie order |
| `Series.EarlierDocumentFirst` | main.py:23-33 | documents dated 2021-03-01 (count 3) and 2021-01-15 (count 0) give a table with the January row first and first-term counts 0, 3 |
| `NGramAddOn.Lower` | main.py:85 | lower-casing keeps the length and lower-cases each character |
| `NGramAddOn.LowerOfUpper` | main.py:73-74 | lower-casing an upper-cased string gives the lower-cased original |
| `NGramAddOn.CountIgnoresCase` | main.py:85-87 | terms that agree up to case give the same recorded count on a document; in particular a term and its upper-cased form do, and upper-casing the document text changes no count |
| `NGramAddOn.SourcePrecedence` | main.py:91-98 | a non-empty id list takes precedence over the query; with neither, no document is processed |
| `NGramAddOn.ZipOfDescribedLists` | main.py:81-88 | zipping lists whose entry k describes document k gives, at index k, that document's row |
| `NGramAddOn.TableOfDocuments` | main.py:81-101 | the table has one row per processed document, is sorted by date, holds only the documents' rows and every one of them, and as a multiset equals the documents' rows, so each row appears as often as documents give it |
| `NGramAddOn.NGram.constructor` | main.py:13-16 | a new add-on object has empty terms and empty lists |
| `NGramAddOn.NGram.ProcessDoc` | main.py:81-88 | appends exactly one entry to each of the four lists: the document's timestamp, the two counts on its lower-cased text, and its title; the terms are unchanged |
| `NGramAddOn.NGram.ProcessAll` | main.py:92-93 | processing documents in order from empty lists leaves four lists of equal length whose entry k describes document k |
| `NGramAddOn.NGram.Run` | main.py:67-101 | the terms are the lower-cased request values (default empty); the lists describe exactly the selected documents, in order; the table is `make_df` of the lists, has one row per document, is sorted by date, contains every document's row and no other row, and as a multiset equals the documents' rows |

## Left out

- Chart rendering (`make_graphs`): it is plotting done by pandas and matplotlib, with no logic of its own.
- CSV export, zip creation, the zip integrity check and the upload: these are file and network I/O.
- The final status message (`set_message`): it is messaging I/O.
- Document retrieval (`documents.list`, `documents.search`): the service is external. `Run` receives what each call returned as the parameters `listed` and `searched`.
- Signing in and reading the request, beyond the two term keys: these are done by the add-on framework, which is not part of this model.
- Date parsing (`pd.to_datetime`, `tz_localize(None)`): it is library behaviour. A timestamp is a pre-parsed wall-clock date, time and offset, and its calendar date is the date it carries. `str(document.created_at)` is kept as that value. Mixed-offset and malformed date strings are not modelled.
- `IsWordChar`: it covers ASCII letters, digits and underscore only, not Python's full Unicode `\w`.
- `Lower`, `Upper`: they map ASCII letters only, not Python's full Unicode case mapping.
- DataFrame column layout: the column names, the collision when both terms are equal after lower-casing, and the CSV index column are pandas layout details.
- A term equal to `date` after lower-casing: in the source, `df["date"] = ...` (main.py:30) overwrites that term's count column with the dates, so the table loses those counts. The model's `Row` keeps both counts and the date apart, so for this term it shows counts the source does not.
- A term equal to `datetime` after lower-casing: in the source, the column list (main.py:27) then holds "datetime" twice, `df["datetime"]` (main.py:29) selects two columns, and `pd.to_datetime` raises. The model's `MakeDf` has no error path for this and returns a table.
- `NGramAddOn.NGram.Run`: in the source the four lists are local variables of `main`, captured by the nested `process_doc`. The model keeps them as fields of `NGram`, which `Run` resets to empty where the source creates them.
- `Series.SortByDate`: the model's sort happens to be stable, but the source's pandas sort is not. No claim about tie order is stated as a source promise; only sortedness, the permutation and the determined date column are.
