# n-gram analysis of a Sponsored Products search-term report, in Dafny

`ngram.py` is a small Streamlit app. It reads the 'SP Search Term Report'
sheet of an Amazon Ads workbook and takes two text boxes: a list of ASINs and
an optional list of branded terms. It then:

- pulls the ASIN out of every campaign name;
- drops the rows whose search term contains a branded term;
- keeps the rows whose ASIN is listed;
- aggregates the remaining rows three times, by the monograms, bigrams and
  trigrams of each cleaned search term.

Each aggregate sums the five metrics (Impressions, Clicks, Spend, Sales,
Units) per n-gram. It derives five ratios (CTR, Conversion Rate, ACOS, CPA,
CPC), attaches the set of campaign IDs in which the n-gram occurs, and sorts
by Spend, highest first. The three tables are then concatenated into one
labelled report.

This project models that core and proves what it promises:

- `text.dfy` (`Text`): the string operations the script relies on:
  - `lower`/`upper` (on ASCII letters);
  - `strip` with Python's `isspace` set;
  - `split` on one character, and its inverse `join`;
  - substring `in`;
  - `str()` of an integer.
- `normalizer.dfy` (`TextNormalizer`): `clean_tokenize` and the stop-word set.
  The tokenizer, the lemmatizer and `isalpha` are given functions, bundled as
  `Nlp`.
- `ngrams.dfy` (`NGrams`): the three n-gram functions. Order 1 is the
  identity; orders 2 and 3 are nltk's `bigrams` and `trigrams`.
- `metrics.dfy` (`Metrics`): the metric record, its sums, and the five ratios.
  A ratio is `None` when its denominator is zero.
- `asin.dfy` (`Asin`): the leftmost case-insensitive match of `B0[A-Z0-9]{8}`.
- `frame.dfy` (`Frame`): the data frame as a class. Its row sequence is
  fixed; the `ASIN` and `ngrams` columns are written in place, and boolean
  masking (`df[mask]`) builds a new frame.
- `filter.dfy` (`ReportFilter`): parsing the two text boxes, the brand filter
  and the ASIN filter.
- `groups.dfy` (`Groups`): one aggregated row, and `sort_values` by Spend,
  descending.
- `aggregate.dfy` (`Aggregation`): `aggregate_ngrams`. This covers:
  - the explode;
  - the group sums and the campaign-ID sets, computed by two loops over the
    exploded rows;
  - the ratios, the left merge and the sort.

  It is proved against a reference definition stated row by row. A group's
  sum is each row's metrics times the number of times the n-gram occurs in
  that row, and its ID set is the IDs of the rows in which it occurs.
- `report.dfy` (`Report`): the concatenation with `N-Gram Type` labels, and
  the whole button handler `RunAnalysis`, including its error path.

Two behaviours follow from the code as written, and the model keeps both:

- **An empty branded-terms box excludes every row.** `''.split('\n')` is
  `['']`, and the empty string is a substring of every search term. So with
  no branded terms the filtered frame is empty, not the whole report
  (`ReportFilter.EmptyBrandInputExcludesEveryRow`).
- **A lower-case ASIN in a campaign name never matches.** The regex matches
  case-insensitively, but the match keeps the campaign name's own case. The
  ASIN list, on the other hand, is upper-cased. So such a row is always
  dropped (`ReportFilter.LowerCaseAsinNeverListed`).

## Model

| member | source | states |
|---|---|---|
| TextNormalizer.StopWords | ngram.py:46-48 | a word is a stop word exactly when it is in the English corpus or is one of the nine added words |
| TextNormalizer.KeptIndices | ngram.py:25 | the positions of the kept tokens: in range, strictly increasing, each kept, and every kept position listed |
| TextNormalizer.CleanTokenize | ngram.py:22-26 | `clean_tokenize` returns, in order and one for one, the lemmas of exactly the kept tokens of the tokenized lowercased text |
| TextNormalizer.CleanTokensAreLemmasOfKept | ngram.py:25 | specifies `CleanTokens`, the list comprehension: the cleaned tokens are, in order and one for one, the lemmas of the tokens that are alphabetic and not stop words |
| TextNormalizer.CleanTokensLength | ngram.py:25 | cleaning never yields more tokens than the tokenizer produced |
| TextNormalizer.CleanTokensAppend | ngram.py:25 | the filter-and-lemmatize comprehension works token by token: it distributes over concatenation |
| TextNormalizer.StopWordsDropped | ngram.py:25 | a stop word on its own cleans to nothing |
| NGrams.WindowsShape | ngram.py:68-69 | there are max(0, len-n+1) windows, and window i is tokens[i..i+n] |
| NGrams.NGramsShape | ngram.py:67-69 | specifies `NGramsOf`, the three `ngram_func` arguments: for each order the n-gram list has max(0, len-size+1) entries and entry i is the slice of `size` tokens at i (a monogram is the token itself) |
| NGrams.NGramsAreWindows | ngram.py:67-69 | every order, the identity included, is the sliding window of its size |
| NGrams.BigramTrigramExample | ngram.py:68-69 | three tokens give two bigrams and one trigram; one token gives no bigram |
| Metrics.Ratio | ngram.py:34-38 | a ratio exists exactly when the denominator is nonzero, and then it times the denominator is the numerator |
| Metrics.DeriveRatios | ngram.py:34-38 | CTR = Clicks/Impressions, Conversion Rate = Units/Clicks, ACOS = Spend/Sales, CPA = Spend/Units, CPC = Spend/Clicks, each defined exactly when its denominator is nonzero |
| Asin.FirstMatchFrom | ngram.py:62-63 | the first position at or after `from` where the pattern matches, or none if there is no such position |
| Asin.ExtractAsin | ngram.py:62-63 | no ASIN exactly when the pattern matches nowhere; otherwise the ten characters at the leftmost match |
| Asin.ExtractedAsinShape | ngram.py:62 | an extracted ASIN has ten characters, starts with B or b then 0, and the rest are letters or digits |
| Text.Lower | ngram.py:24 | same length, no ASCII upper-case letter left, each character lowered individually |
| Text.Upper | ngram.py:58 | same length, no ASCII lower-case letter left, each character raised individually |
| Text.TrimStart | ngram.py:59 | a suffix of the input that does not start with whitespace; everything dropped is whitespace |
| Text.TrimEnd | ngram.py:59 | a prefix of the input that does not end with whitespace; everything dropped is whitespace |
| Text.Strip | ngram.py:59 | a slice of the input with no whitespace at either end; everything dropped on either side is whitespace |
| Text.Split | ngram.py:58-59 | at least one piece; no piece contains the separator; every character of a piece comes from the input |
| Text.JoinSplit | ngram.py:58-59 | joining the pieces back with the separator gives the input |
| Text.Contains | ngram.py:64 | `p in s` holds exactly when `p` is a prefix of some suffix of `s` that is long enough to hold it |
| Text.EmptyOccursEverywhere | ngram.py:64 | the empty string occurs in every string |
| Text.ShowIntInjective | ngram.py:39 | `str()` of integers (`ShowInt`) is injective, so the ID set collapses exactly the equal IDs |
| Text.ReadShowNat | ngram.py:39 | reading back the decimal digits `ShowNat` writes gives the number |
| Text.ReadShowInt | ngram.py:39 | `ShowInt` writes an optional minus sign followed by digits, and `int(str(n)) == n` |
| ReportFilter.ParseAsins | ngram.py:58 | one entry per line: at least one entry, no entry contains a newline, and joining the entries with newlines gives the upper-cased input; no entry has a lower-case letter |
| ReportFilter.ParseBrands | ngram.py:59 | one branded term per input line (its content: `ParseBrandsNormalized`) |
| ReportFilter.ParseBrandsNormalized | ngram.py:59 | branded term i is `line.strip().lower()` of line i: the lowercased slice of the line that starts after its leading whitespace, has only whitespace after it, and has no whitespace at either end |
| ReportFilter.BrandHitIff | ngram.py:64 | specifies `BrandHit`: the `any` over branded terms holds exactly when some branded term occurs in the lowercased search term |
| ReportFilter.FilteredRowsMembers | ngram.py:64-65 | specifies `FilteredRows` and `KeepRow`: a row is kept exactly when it is an input row, contains no branded term, and has a listed ASIN |
| ReportFilter.FilteredRowsAppend | ngram.py:64-65 | filtering keeps row order: it distributes over concatenation |
| ReportFilter.KeepMask | ngram.py:64-65 | one bit per row, set exactly when the row passes both filters |
| ReportFilter.FilteredRowsAreMasked | ngram.py:64-65 | the filtered rows are the input masked by `KeepRow`, so (with `WhereAtIndices`) they are the input rows at the kept positions, in order |
| ReportFilter.EmptyBrandInputExcludesEveryRow | ngram.py:59-64 | an empty branded-terms box parses to `[""]` and then no row survives |
| ReportFilter.BrandedRowExcluded | ngram.py:64 | a row whose lowercased search term contains a branded term is in no filtered result |
| ReportFilter.LowerCaseAsinNeverListed | ngram.py:58-65 | an extracted ASIN with a lower-case letter is never in the upper-cased ASIN list |
| ReportFilter.TwoMasksSelectFiltered | ngram.py:64-65 | the brand mask `BrandMask` followed by the ASIN mask `AsinMask`, recomputed on the masked frame, selects exactly the filtered rows |
| ReportFilter.FilterFrame | ngram.py:62-65 | writes the ASIN column into the frame and leaves its rows alone; returns a new frame holding exactly the filtered rows and their ASIN column, and no `ngrams` column when the input frame had none |
| Frame.AsinColumn | ngram.py:63 | one entry per row, the ASIN extracted from that row's campaign name |
| Frame.NGramColumn | ngram.py:30 | one entry per row, the n-grams of that row's cleaned search term |
| Frame.Where | ngram.py:64-65 | masking never lengthens and keeps only input entries (completeness and order: `WhereMembers`, `WhereAtIndices`) |
| Frame.MaskIndices | ngram.py:64-65 | the positions whose mask bit is set: in range, strictly increasing, each set, and every set position listed |
| Frame.WhereAtIndices | ngram.py:64-65 | `s[mask]` holds, in order and one for one, the entries of `s` at the set positions |
| Frame.WhereMembers | ngram.py:64-65 | an entry is in `s[mask]` exactly when it sits at some position whose mask bit is set |
| Frame.WhereSnoc | ngram.py:64-65 | masking one more entry appends it exactly when its bit is set |
| Frame.WhereAsinColumn | ngram.py:63-65 | masking the ASIN column equals recomputing it on the masked rows |
| Frame.SearchTermFrame.constructor | ngram.py:61 | a frame of the sheet's rows with no derived columns yet |
| Frame.SearchTermFrame.AttachAsin | ngram.py:63 | the frame's `ASIN` column becomes the extraction of every campaign name, and nothing else changes |
| Frame.SearchTermFrame.AttachNGrams | ngram.py:30 | the frame's `ngrams` column becomes the n-grams of every search term, and nothing else changes |
| Frame.SearchTermFrame.Select | ngram.py:64-65 | a new frame holding the masked rows and the masked columns |
| Groups.Insert | ngram.py:41 | inserting into a table sorted by Spend (descending) keeps it sorted and adds one row |
| Groups.InsertPermutes | ngram.py:41 | insertion adds exactly that row to the multiset of rows |
| Groups.SortBySpend | ngram.py:41 | the result is ordered by Spend, non-increasing, and is a permutation of the input |
| Groups.SortKeys | ngram.py:41 | sorting keeps the set of n-gram keys and keeps them distinct |
| Groups.SortedRowsAreInputRows | ngram.py:41 | sorting neither adds nor drops a row, and keeps the length |
| Aggregation.Explode | ngram.py:31-32 | the exploded frame is empty exactly when the frame is empty (what each row contributes: `BlockFacts`) |
| Aggregation.Count | ngram.py:31-33 | an n-gram is counted in a row exactly when it occurs there |
| Aggregation.CountIsMultiplicity | ngram.py:31-33 | the count of an n-gram in a row is its multiplicity in the row's n-gram list |
| Aggregation.PairsAt | ngram.py:31 | exploded row i of a row is that row paired with its i-th n-gram |
| Aggregation.PairsFacts | ngram.py:31-39 | among one row's exploded rows, an n-gram is a key exactly when the row has it, its sum is the row's metrics times its count, and its ID set is the row's ID or empty |
| Aggregation.NaNRowFacts | ngram.py:31-33 | the NaN row of a row without n-grams is in no group and adds nothing to any sum or ID set |
| Aggregation.BlockFacts | ngram.py:31-39 | what any one row contributes to the keys, the sums and the ID sets, NaN row included |
| Aggregation.KeysAppend | ngram.py:33 | specifies `PairKeys`: the group keys of two exploded frames together are the union of their keys |
| Aggregation.TotalsAppend | ngram.py:33 | specifies `PairTotals`: the group sum over two exploded frames together is the sum of their group sums |
| Aggregation.IdsAppend | ngram.py:39 | specifies `PairIds`: the ID set over two exploded frames together is the union of their ID sets |
| Aggregation.Snoc | ngram.py:33-39 | one more exploded row adds its n-gram to the keys, its metrics to that group's sum and its ID to that group's set, and leaves every other group alone |
| Aggregation.AbsentKey | ngram.py:33-39 | an n-gram that is no group key has all-zero sums and no IDs |
| Aggregation.ExplodeKeys | ngram.py:31-33 | an n-gram is a group key exactly when it occurs in some row; NaN rows form no group |
| Aggregation.ExplodeTotals | ngram.py:30-33 | the group sum of an n-gram is the sum over the rows of its number of occurrences times the row's metrics |
| Aggregation.ExplodeIds | ngram.py:31-39 | the ID set of an n-gram is the stringified IDs of the rows in which it occurs |
| Aggregation.RowIdsMembers | ngram.py:39 | a string is in an n-gram's ID set exactly when it is the ID of a row containing the n-gram |
| Aggregation.CampaignIdListed | ngram.py:39 | an ID is listed for an n-gram exactly when some row with that campaign ID contains the n-gram |
| Aggregation.RowWithoutNGramAddsNothing | ngram.py:30-39 | a row in which an n-gram does not occur changes neither its sums nor its ID set |
| Aggregation.SumMetrics | ngram.py:33 | the loop yields each group key once, and the map holds exactly those keys with the group sums |
| Aggregation.CollectCampaignIds | ngram.py:39 | the loop yields a map holding exactly the group keys with their ID sets |
| Aggregation.TabulateRows | ngram.py:33-38 | specifies `Tabulate`: one table row per key in key order, with that key's sums, the ratios derived from them, and no Campaign ID cell yet |
| Aggregation.MergeLeft | ngram.py:40 | every left row is kept in order with its key, sums and ratios; its Campaign ID cell is the matching ID set, or NaN when there is no match |
| Aggregation.AggregateNGrams | ngram.py:29-43 | writes the `ngrams` column into the frame. Returns the empty table for an empty frame; otherwise one row per occurring n-gram, with distinct keys, sorted by Spend descending, each with the reference sums, their ratios and the reference ID set |
| Aggregation.NoNGramsNoGroups | ngram.py:31-43 | when no row yields an n-gram, the aggregate is empty |
| Report.Assemble | ngram.py:71-73 | the report has as many rows as the three tables together |
| Report.TagAt | ngram.py:71-72 | specifies `Tag`: each report row carries its table's label and one row of that table |
| Report.AssembleOrdered | ngram.py:71-73 | all monogram rows come first, then all bigram rows, then all trigram rows |
| Report.AssembleSlices | ngram.py:71-73 | the rows carrying each label are exactly that table, in its order |
| Report.RunAnalysis | ngram.py:56-73 | fails with the message exactly when no file is given or the ASIN box is empty. Otherwise returns the monogram, bigram and trigram aggregates of the filtered rows, and their labelled concatenation |

## Left out

- The Streamlit page is not modelled: title, logo, widgets, success message and download link. The upload and the two text boxes are parameters of `RunAnalysis`, and its error result stands for `st.error` (ngram.py lines 93-94).
- The nltk downloads and the loading of the English stop-word corpus are not modelled. The corpus is a parameter of `StopWords`.
- The internals of `word_tokenize`, `WordNetLemmatizer.lemmatize` and `str.isalpha` are not modelled. They are library code, taken as the given functions of `Nlp`.
- Reading the workbook, writing the four sheets, `BytesIO`, base64, the timestamped file name and the download link are not modelled. They are I/O.
- Text.Lower: maps only the ASCII letters. Python's `str.lower` also lowers non-ASCII letters.
- Text.Upper: raises only the ASCII letters. Python's `str.upper` also raises non-ASCII letters, and can change a string's length (ß becomes SS).
- Asin.ExtractAsin: does not accept the non-ASCII characters that Python's case-insensitive matching treats as ASCII letters.
- Metrics.Ratio: a zero denominator gives `None` rather than the float `inf` or `NaN` pandas produces. The metrics are exact numbers (integers for the counts, reals for Spend and Sales), so rounding and 64-bit overflow are not modelled.
- Groups.Group: a monogram key is the one-element n-gram `[t]`, while pandas groups the bare token string. The keys correspond one to one, so groups and sums are unchanged.
- Aggregation.CollectCampaignIds: the Campaign ID cell is the set of ID strings. The script joins the set with commas, in the set's iteration order, which is unspecified.
- Groups.SortBySpend: the result is specified up to the order of rows with equal Spend, since pandas' default sort is not stable. Likewise, the order in which `groupby` lists its keys before the sort is not modelled.
- A workbook without the `SP Search Term Report` sheet, or a sheet missing a column the script names, is not modelled. Examples are `Campaign ID` (ngram.py line 39), `Campaign Name (Informational only)` (line 63), `Customer Search Term` and the five metric columns. pandas raises a `ValueError` or `KeyError` there, and the script does not catch it. The model's rows are typed records that always have every column.
- Non-string cells are not modelled. A missing search term or campaign name makes the script raise; a missing metric is skipped by `sum`; a Campaign ID column read as float prints as `123.0`. The model's rows are fully typed: strings, an integer ID and exact metrics.
- `reset_index(level=0, inplace=True)` and the rename of `level_0` are not modelled as in-place updates. The concatenated frame is fresh and nothing else refers to it, so `Assemble` builds the labelled rows directly.
- pandas' copy-versus-view behaviour (`SettingWithCopyWarning`) is not modelled. `aggregate_ngrams` writes its `ngrams` column into the filtered frame, and the model writes it into that frame object; the three calls overwrite the column in turn, as in the script.
