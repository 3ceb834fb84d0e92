# fundcat in Dafny

A verified model of the core of `fundcat`, a script that downloads the daily
top-50 ranking of funds from a fund-data endpoint, stores each day as a
tab-separated file, and later merges a window of days to report which funds
appear most often in the ranking and which have the highest mean growth
ratio.

The model covers four pieces of `fundcat.py`:

- **Payload repair** (`payload.dfy`). The endpoint answers with a JavaScript
  assignment `var rankData = {datas:[...],allRecords:...}`. The repair removes
  every `var rankData = `, cuts the text before the character that precedes the
  first `allRecords`, appends `}` and replaces every `datas` by `"datas"`. The
  text operations have Python's semantics (`strings.dfy`): `str.replace` scans
  left to right without overlaps, `str.index` finds the first occurrence or
  fails, and `s[:stop]` with a negative stop counts from the end.
- **Record normalisation and the day file** (`records.dfy`). Each raw record is
  split on `,`. Fields 0, 1, 7, 10 and 3 become id, name, start price, end
  price and growth ratio. A record with fewer than 11 fields fails, like the
  source's `IndexError`. The day's file is the header line, then one
  five-column row per fund, each line followed by the line separator.
- **Reading a day back and the window** (`snapshots.dfy`, `pipeline.dfy`). The
  data directory is a map from (interval, day number) to the lines last
  written there. An analysis window is the keys for the query day plus
  0 … period−1, all in the same interval directory. Loading is all or nothing.
- **Aggregation** (`aggregation.dfy`). All rows are concatenated and grouped by
  id. Each group has a size and a mean growth ratio, and two rankings keep the
  50 groups with the largest size and the 50 with the largest mean. Ties are
  broken by ascending id: `groupby` lists its groups in ascending id order, and
  `nlargest(keep='first')` keeps the first of equal values.

`pipeline.dfy` ties them together. `FileStore.QueryTopRank` is
`query_top_rank`: it cleans the response, decodes it, empties the day's file
when it opens it, normalises all funds, and then writes the lines.
`FileStore.RankDistribution` is `rank_distribution`.

Points where the model follows the code rather than what one might expect:

- A missing `var rankData = ` prefix is not an error. `str.replace` simply
  finds nothing to remove.
- Prices and ratios are not checked to be numeric when the file is written.
  They are copied as text.
- When a fund has too few fields, no line is written. The file was already
  opened for writing, so it is left empty rather than untouched.
- A window of zero or fewer days is an error, because `pd.concat` refuses an
  empty list.

## Model

| member | source | states |
|---|---|---|
| Strings.FindFirst | fundcat.py:25 | `str.index`: the index found is an occurrence and no earlier index is; None exactly when the pattern occurs nowhere |
| Strings.ReplaceAll | fundcat.py:24-27 | Python's left-to-right, non-overlapping `str.replace`; its meaning is stated by `ReplaceAllIsJoinSplit` and `ReplaceAllKeepsLast` |
| Strings.Split | fundcat.py:36-40 | Python's `str.split` on a non-empty separator, never an empty list; `SplitJoinIdentity`, `SplitPiecesFree` and `SplitJoinRoundTrip` state what it computes |
| Strings.ReplaceAllIsJoinSplit | fundcat.py:24 | `s.replace(p, r)` equals `r.join(s.split(p))`: every occurrence found by the left-to-right scan is replaced and the text between them is kept |
| Strings.SplitJoinIdentity | fundcat.py:24 | joining the pieces of a split with the separator gives back the original text |
| Strings.SplitPiecesFree | fundcat.py:27 | no piece of `s.split(p)` contains `p` |
| Strings.SplitJoinRoundTrip | fundcat.py:36-40 | splitting on a one-character separator undoes joining with it when no piece contains the separator |
| Strings.ReplaceAllKeepsLast | fundcat.py:27 | replacing a pattern that lacks the text's last character keeps that character last |
| Strings.LessTransitive | fundcat.py:64 | the id order used for ties (Python's string `<`) is transitive |
| Strings.LessTotal | fundcat.py:64 | any two different ids are ordered one way or the other |
| Payload.PyPrefix | fundcat.py:26 | Python's `s[:stop]`: a prefix of `s`, of length `stop` capped at the length, or the length plus `stop` (at least 0) for a negative stop |
| Payload.Cleaned | fundcat.py:24-27 | the cleaned payload as a value; `CleanedFailsIffNoMarker`, `CleanedTruncation`, `CleanedEndsWithBrace` and `CleanedHasNoBareKey` state its error case, its exact result and its shape |
| Payload.CleanPayload | fundcat.py:24-27 | the four reassignments of the response text; fails with PayloadFormat exactly when no `allRecords` remains after the prefix is removed; on success the text ends with `}` |
| Payload.CleanedFailsIffNoMarker | fundcat.py:25 | cleaning fails, with PayloadFormat, exactly when the stripped text has no `allRecords` |
| Payload.CleanedTruncation | fundcat.py:24-26 | with `allRecords` first at `pos >= 1`, the result is the stripped text before `pos - 1`, then `}`, quoted; at `pos == 0` the slice `[:-1]` drops the last character of the whole text instead |
| Payload.CleanedEndsWithBrace | fundcat.py:26-27 | the cleaned text is non-empty and ends with `}` |
| Payload.QuoteKeysReplacesEveryKey | fundcat.py:27 | quoting keeps the pieces between occurrences of `datas`, none of which contains `datas`, and joins them with `"datas"` |
| Payload.QuoteKeysCopiesUntilQuote | fundcat.py:27 | until the quoted text shows a quote character, it copies the original text |
| Payload.QuoteKeysLeavesNoBareKey | fundcat.py:27 | every `datas` in the quoted text has a quote right before and right after it |
| Payload.CleanedHasNoBareKey | fundcat.py:24-27 | the cleaned payload has no unquoted `datas` key |
| Records.Normalise | fundcat.py:36-40 | one fund mapped to its five columns; `NormaliseFields` states which field becomes which column and when it fails |
| Records.NormaliseFrom | fundcat.py:35-40 | all funds normalised in order, or the position of the first one with fewer than 11 fields, every earlier one being normalisable |
| Records.NormaliseFields | fundcat.py:36-40 | for a record that is the comma-join of comma-free fields: id, name, start, end, growth are fields 0, 1, 7, 10, 3; it fails exactly when there are fewer than 11 fields |
| Records.FormatRow | fundcat.py:41-42 | the five-column row of a fund; `RowRoundTrip` states that it splits back into the fund's columns in header order |
| Records.FileLines | fundcat.py:34-43 | the list handed to `writelines`; `FileLinesShape` states its length and contents, and `Snapshots.ReadAfterWrite` that it reads back as the records written |
| Records.TabRowRoundTrip | fundcat.py:41-42 | a five-column row splits on tabs back into its five columns when none contains a tab |
| Records.HeaderColumns | fundcat.py:91-92 | the header splits into `ID NAME START_PRICE END_PRICE GROWTH_RATIO` |
| Records.RowRoundTrip | fundcat.py:41-42 | a fund's row splits on tabs into id, name, start price, end price, growth ratio: as many columns as the header, in its order |
| Records.RowLinesShape | fundcat.py:35-43 | the data lines are 2n long: row k at 2k and a separator at 2k+1 |
| Records.FileLinesShape | fundcat.py:34-43 | the line list has 2 + 2n lines: header, separator, then each fund's row and a separator, in input order |
| Records.LinesOfNormalised | fundcat.py:34-44 | a line list of the loop's shape is exactly the file written for the normalised funds |
| Records.SnapshotLines | fundcat.py:34-43 | the loop that builds the line list: fails at the first fund with fewer than 11 fields, else header, separator, and row k at 2 + 2k with a separator after it |
| Snapshots.ReadSnapshot | fundcat.py:62 | `pd.read_csv` of one day's file: every failure is MalformedSnapshot for that key, and an empty file fails; `ReadAfterWrite` states that a written file reads back |
| Snapshots.FormatRowHasNoLineBreak | fundcat.py:41-42 | a row of plain columns is non-empty and has no line break |
| Snapshots.RowLinesReadBack | fundcat.py:44 | the written data lines are read back as exactly one physical line per row |
| Snapshots.RowStringsParse | fundcat.py:62 | each written row is read as its id and the number its growth-ratio text denotes |
| Snapshots.ReadAfterWrite | fundcat.py:33-44 | a day file written for plain records with numeric growth ratios reads back as one row per record, in order, with the same id and growth ratio |
| Aggregation.Concat | fundcat.py:62 | `pd.concat` of the days' tables; `ConcatSize` and `ConcatCounts` state its size and that each fund's group collects its rows of every day |
| Aggregation.ConcatSize | fundcat.py:62 | the concatenation has as many rows as all snapshots together |
| Aggregation.CountOfAppend | fundcat.py:62 | the rows carrying an id in two tables appended are those of each table added |
| Aggregation.ConcatCounts | fundcat.py:62-64 | a fund's group in the concatenation has exactly its rows of every day |
| Aggregation.CountOf | fundcat.py:64 | a group is non-empty exactly when some row carries its id |
| Aggregation.Mean | fundcat.py:66 | a group's mean growth ratio; `MeanWithinGroup` states that it lies between the group's least and greatest ratio |
| Aggregation.SumWithinGroup | fundcat.py:66 | a group's sum of growth ratios lies between its size times the least and the greatest ratio |
| Aggregation.MeanWithinGroup | fundcat.py:66 | a group's mean lies between every lower and upper bound of its rows' growth ratios |
| Aggregation.Ids | fundcat.py:64 | the groups: each id occurring in the rows, each once |
| Aggregation.CountSumCovers | fundcat.py:64 | the sizes of distinct ids covering every row add up to the number of rows |
| Aggregation.CountsSumToTotal | fundcat.py:64 | the group sizes add up to the total row count |
| Aggregation.GroupCount | fundcat.py:64 | there are as many groups as distinct ids |
| Aggregation.Best | fundcat.py:64-66 | an entry of the list that ranks before every other entry |
| Aggregation.Without | fundcat.py:64-66 | the entries without the given id, one fewer when the id occurs |
| Aggregation.TopN | fundcat.py:64-66 | `nlargest(k)`: min(k, n) entries from the input with distinct ids, in ranking order, each ranking before every entry left out |
| Aggregation.ExtendRanking | fundcat.py:64-66 | the best entry followed by a ranking of the others is a ranking of all |
| Aggregation.CountRanking | fundcat.py:64 | `groupby('ID').agg(count).nlargest(50)`; `TopByCount` states its contents and order |
| Aggregation.GrowthRanking | fundcat.py:66 | `groupby('ID').agg(mean).nlargest(50)`; `TopByGrowth` states its contents and order |
| Aggregation.Aggregate | fundcat.py:62-66 | both rankings of the concatenated days; `TopByCount` and `TopByGrowth` on `Concat`, and `ThreeDayExample`, state what they hold |
| Aggregation.TopByCount | fundcat.py:64 | the count ranking has min(50, groups) distinct ids, each scored by its group size, non-increasing, equal sizes in ascending id order, and no group left out has more rows than any group kept |
| Aggregation.TopByGrowth | fundcat.py:66 | the growth ranking has min(50, groups) distinct ids, each scored by its group's sum of growth ratios over its size, non-increasing, equal means in ascending id order, and no group left out has a higher mean than any group kept |
| Aggregation.TopCap | fundcat.py:64-66 | with at least 50 distinct ids both rankings hold exactly 50 entries |
| Aggregation.ThreeDayExample | fundcat.py:62-66 | three days with fund 000001 at growth ratios 1, 2 and 3: its count is 3, its mean is 2, and it is the only entry of both rankings |
| Pipeline.Window | fundcat.py:59-61 | the window has max(period, 0) keys, key k naming day query + k in the interval's directory |
| Pipeline.WindowIsConsecutive | fundcat.py:59-61 | the window's keys share the interval, start at the query day and go up one day at a time, so the days are in increasing order |
| Pipeline.WindowKeys | fundcat.py:57-61 | the loop that lists the window's files: max(period, 0) keys, key k for day query + k, all in the same interval |
| Pipeline.LoadWindow | fundcat.py:62 | loading succeeds exactly when every key of the window has a readable file, giving one table per key in order; otherwise it stops at a key all of whose predecessors load, with MissingSnapshot for that key when its file is absent or the reader's error when it is present but unreadable |
| Pipeline.LoadWindowFirstFailure | fundcat.py:62 | the error of a failed load is decided by the first key that does not load: MissingSnapshot for it when its file is absent, MalformedSnapshot for it otherwise |
| Pipeline.WindowFirstBadDay | fundcat.py:59-62 | a window whose first unreadable day is `d` fails with MissingSnapshot for day `d` when its file is absent, MalformedSnapshot for day `d` otherwise |
| Pipeline.FileStore.QueryTopRank | fundcat.py:8-44 | no file change on a payload or decode error; on a short record the day's file is left empty; otherwise the day's file holds the header and one row per fund |
| Pipeline.FileStore.RankDistribution | fundcat.py:47-66 | succeeds exactly when the period is positive and every day of the window has a readable file, and then returns the rankings of the concatenated days; an empty window is NoSnapshots, and any other failure is the error of loading the window |

## Left out

- The HTTP request, its headers and URL, and the `end_date` computed for the URL (fundcat.py:15-21, 73-88) are network I/O. `QueryTopRank` takes the response text as a parameter.
- JSON decoding (`json.loads(raw_json)["datas"]`, fundcat.py:31) is a library call. `QueryTopRank` takes the decoder's answer as a parameter `decode: string -> Option<seq<string>>`; None stands for a decoding error or a missing `datas` key.
- Dates are integer day numbers. `strptime`/`strftime` and the file paths `data/<interval>/<date>.csv` are not modelled; a file is named by its key (interval, day).
- Failures of `open` (a missing `data/<interval>` directory, permissions) and partial writes are not modelled.
- The name column is written as `name.encode('utf-8')`, which in Python 3 produces a bytes literal `b'...'`. The model writes the name as opaque text.
- `os.linesep` is taken to be `"\n"`, as on a POSIX host.
- Snapshots.ReadSnapshot: pandas' `read_csv` is modelled only as far as the aggregation needs it. The header must be exactly the five names, every row must have exactly five tab-separated columns, and the growth ratio must be a plain decimal (optional sign, digits, optional fraction). pandas is more lenient. It pads short rows, reads exponents, `inf` and `nan`, and turns empty cells and strings such as `NA` into missing values, which `groupby` and `mean` then skip. None of that is modelled.
- Growth ratios and their means are exact reals, not binary floating point. Group sizes are ranked by their real value.
- Printing the rankings (fundcat.py:67-71), the command-line parsing, and the download loop with its `datetime.now()` filter (fundcat.py:95-130) are left out. They are console output, CLI plumbing and clock-dependent.
