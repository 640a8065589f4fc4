# Wearable export normaliser: a Dafny model

This project models the core of a small pipeline that turns per-day JSON
exports from a wearable-device cloud service into two tables:

- a per-minute table with heart rate, stress, respiration, body battery,
  steps, kilocalories and a sleep flag on a fixed grid;
- a per-day summary with daily means, the last body-battery value, the
  totals, the maximum sleep flag and four coverage ratios.

Two scripts are modelled:

- `scripts/build_dataset.py` (modules `PairExtractor`, `Series`,
  `TreeSearch`, `Grid`, `GapFill`, `Names` and `DatasetBuilder`):
  - locating `[timestamp, value]` series anywhere in a JSON tree (`collect_pairs`);
  - turning them into a sorted series with one value per instant, last write
    winning (`pairs_to_series`);
  - the global body-battery series built from every `body_battery_*.json` file;
  - the two first-match tree searches (`find_first_number`, `parse_sleep_window`);
  - day discovery from file names;
  - the per-day body of `main`: grid, bucket means, body-battery gap filling,
    sleep flag, the drop rule, the daily row and the final emptiness check.
- `scripts/update_recent.py` (module `UpdateRecent`): the last date already
  present, the end and start dates, the chunked download plan, and the
  rebuild command.

Shared pieces live in `JsonValue`: the JSON value type, `Option`/`Result`,
Python's `int()` on a float, and the string helpers.

Modelling conventions:

- **Instants** are absolute integer milliseconds.
- **Days** in `update_recent.py` are day numbers, so `timedelta(days=1)` adds 1.
- **Values** are `real`, and a missing grid slot is `None`.
- **The raw directory** is a map from file name to the parsed document, with
  `None` for a file that does not parse.
- **External parsers** are parameters of the model, because they lie outside
  it:
  - `int()` on a string timestamp;
  - the date-time parse of a sleep timestamp string;
  - the instant of local midnight of a day;
  - `strptime` of a `YYYY-MM-DD` date.
- **Each imperative routine** of the source is a Dafny method whose `ensures`
  ties its result to a specification function. The properties the source
  promises are lemmas about those functions.
- **Each routine that stops the script with an exception** returns a `Result`
  error instead.

Failures while reading the day files:

- Only the body-battery loader catches read and parse failures. A per-day
  metric, user-summary or sleep file that is not valid JSON stops the whole
  run (`BuildError.Unreadable`), and so does a metric file that
  `collect_pairs` raises on (`BuildError.MalformedSeries`).
- A day string that `pd.Timestamp` rejects also stops the run (`BadDay`).

## Model

| member | source | states |
|---|---|---|
| JsonValue.Trunc | scripts/build_dataset.py:41 | `int(x)` on a float truncates toward zero: the result is within one unit of x, on x's side of zero |
| JsonValue.MaxOf | scripts/update_recent.py:57 | max() of a non-empty list is one of its values and bounds them all; it also gives the daily sleep_flag maximum at build_dataset.py:296 |
| PairExtractor.ToEpochMs | scripts/build_dataset.py:40-42 | a value below 10^10 is read as seconds and multiplied by 1000, any other value is kept as milliseconds; so a result below 10^10 is always a multiple of 1000 |
| PairExtractor.SecondsAndMillisAgree | scripts/build_dataset.py:40-42 | a value s below the cutoff whose millisecond form is at or above it maps to the same instant as s * 1000 |
| PairExtractor.IntOf | scripts/build_dataset.py:41 | `int()` of a timestamp succeeds exactly on a number or on a string the string parser accepts; a non-negative number gives the integer at or below it, a string what the parser gives |
| PairExtractor.EpochTimestampBounds | scripts/build_dataset.py:52-53 | an is_epoch number (a number above 10^9) truncates to at least 10^9, and to_epoch_ms of it lies at or after the seconds cutoff |
| PairExtractor.IsPairSeries | scripts/build_dataset.py:58-60 | a list is taken as a series only when it has at least ten elements and at least eight of its first ten start with an epoch-like number |
| PairExtractor.EpochScore | scripts/build_dataset.py:58-59 | the score is at most the sample size and equals it exactly when every sampled element starts with an epoch-like number |
| PairExtractor.EpochScoreCount | scripts/build_dataset.py:58-59 | the score is exactly the number of sampled elements whose first component is an epoch-like number |
| PairExtractor.ValueEntry | scripts/build_dataset.py:62-69 | an element is skipped exactly when its value is non-numeric or out of [lo, hi]; it is kept exactly when the value is numeric and in range and its timestamp converts, then stamped with to_epoch_ms of the converted timestamp; otherwise it raises |
| PairExtractor.EntryOf | scripts/build_dataset.py:61-69 | a kept element is a list of at least two items whose second item is a number inside [lo, hi], and the pair carries that number |
| PairExtractor.EntryOfRaises | scripts/build_dataset.py:61-69 | an element raises exactly when e[0] and e[1] cannot both be read (a list or string shorter than two, any other non-indexable value) or when its in-range numeric value comes with a timestamp `int()` rejects |
| PairExtractor.SeriesPairs | scripts/build_dataset.py:61-70 | the pairs of an accepted series are all inside [lo, hi] and at most one per element |
| PairExtractor.SeriesPairsNoneIff | scripts/build_dataset.py:61-69 | the series loop raises exactly when one of its elements raises |
| PairExtractor.SeriesPairsInOrder | scripts/build_dataset.py:61-69 | an accepted series yields one pair per kept element and no other, in list order: the pair of element i sits after those of the kept elements before it |
| PairExtractor.PairsOf | scripts/build_dataset.py:55-78 | every pair collected anywhere in the tree has its value inside [lo, hi] |
| PairExtractor.PairsOfList | scripts/build_dataset.py:71-72 | the pairs collected from the elements of a non-series list are all inside [lo, hi] |
| PairExtractor.PairsOfFields | scripts/build_dataset.py:73-75 | the pairs collected from the values of a dict are all inside [lo, hi] |
| PairExtractor.FieldsSearchedLikeList | scripts/build_dataset.py:73-75 | a dict is searched exactly like the list of its values |
| PairExtractor.KeysIgnored | scripts/build_dataset.py:73-75 | renaming the keys of a dict does not change what is collected from it |
| PairExtractor.NonSeriesListLikeDict | scripts/build_dataset.py:56-75 | a list that fails the 8-of-10 test is searched like a dict holding the same values |
| PairExtractor.SeriesPairsProvenance | scripts/build_dataset.py:61-69 | every pair taken from an accepted series comes from one element, with that element's numeric value and to_epoch_ms of its converted timestamp |
| PairExtractor.CollectPairs | scripts/build_dataset.py:45-78 | the accumulating search returns exactly the specified pairs, or fails exactly when the specification raises; every value is in range |
| PairExtractor.CollectInto | scripts/build_dataset.py:55-75 | `rec` appends exactly the node's pairs to the accumulator, and fails exactly when the node raises |
| PairExtractor.CollectSeries | scripts/build_dataset.py:61-70 | the loop over an accepted series appends exactly its pairs and fails exactly when an element raises |
| PairExtractor.CollectList | scripts/build_dataset.py:71-72 | the loop over a non-series list appends exactly the pairs of its elements in order |
| PairExtractor.CollectFields | scripts/build_dataset.py:73-75 | the loop over a dict's values appends exactly their pairs in order |
| PairExtractor.SeriesNoneExtends | scripts/build_dataset.py:61-69 | once an element of an accepted series raises, the whole series raises |
| PairExtractor.ListNoneExtends | scripts/build_dataset.py:71-72 | once an element of a list raises, the whole list raises |
| PairExtractor.FieldsNoneExtends | scripts/build_dataset.py:74-75 | once a value of a dict raises, the whole dict raises |
| Series.Insert | scripts/build_dataset.py:86-87 | inserting into a strictly increasing series keeps it strictly increasing and grows it by at most one pair |
| Series.InsertLastWrite | scripts/build_dataset.py:86-87 | inserting writes the new value over the series' instant-to-value mapping |
| Series.AppendIncreasing | scripts/build_dataset.py:86 | appending an instant later than all others keeps the series sorted |
| Series.Normalize | scripts/build_dataset.py:81-88 | the series has strictly increasing instants, maps every instant to the last value written for it, and is no longer than its input (empty for empty input) |
| Series.LastWrite | scripts/build_dataset.py:87 | the map that writing the pairs in order leaves behind has at most one entry per pair; LastWriteKeys and LastWriteWins pin its keys and values |
| Series.LastWriteKeys | scripts/build_dataset.py:87 | the instants of the last-write mapping are exactly the input's instants |
| Series.LastWriteWins | scripts/build_dataset.py:87 | a pair with no later pair at its instant gives that instant's value |
| Series.LastWriteValues | scripts/build_dataset.py:87 | every value of the mapping was written by some input pair at that instant |
| Series.SeriesEntryIsMapValue | scripts/build_dataset.py:86-87 | in a normalised series each pair is its instant's mapped value |
| Series.NormalizeLastWins | scripts/build_dataset.py:86-87 | a pair not overwritten later appears in the normalised series |
| Series.NormalizeInstants | scripts/build_dataset.py:86-87 | normalising neither loses nor invents instants |
| Series.NormalizeFixesSeries | scripts/build_dataset.py:81-88 | a strictly increasing series is left unchanged |
| Series.NormalizeIdempotent | scripts/build_dataset.py:81-88 | applying pairs_to_series to its own output changes nothing |
| Series.NormalizeKeepsRange | scripts/build_dataset.py:81-88 | normalising keeps every value inside the range the pairs were collected with |
| TreeSearch.FindFirstNumber | scripts/build_dataset.py:104-118 | the result is None exactly when no number is stored under a listed key, and otherwise the first one in search order |
| TreeSearch.NumbersUnder | scripts/build_dataset.py:104-118 | a number, string or null holds no match, and an empty key list matches nothing; FindFirstNumber and FirstNumberIsFirstCollected tie its head to find_first_number |
| TreeSearch.FirstNumber | scripts/build_dataset.py:104-118 | a number, string or null, or an empty key list, yields None; FirstNumberIsFirstCollected shows it is the first of all matches in search order |
| TreeSearch.CollectNumbers | scripts/build_dataset.py:107-115 | `rec` appends exactly the node's numbers, in search order |
| TreeSearch.CollectNumbersInFields | scripts/build_dataset.py:108-112 | the loop over a dict's entries appends each entry's own number and then its subtree's numbers |
| TreeSearch.CollectNumbersInEntry | scripts/build_dataset.py:109-112 | an entry's own number comes before everything found below it |
| TreeSearch.CollectNumbersInList | scripts/build_dataset.py:113-115 | the loop over a list appends its elements' numbers in order |
| TreeSearch.NumbersUnderListSplit | scripts/build_dataset.py:113-115 | the numbers of a concatenated list are the numbers of its two parts, in order |
| TreeSearch.NumbersUnderFieldsSplit | scripts/build_dataset.py:108-112 | the numbers of a concatenated dict are the numbers of its two parts, in order |
| TreeSearch.FirstNumberIsFirstCollected | scripts/build_dataset.py:104-118 | the short-circuiting first-match search agrees with the head of the full collection |
| TreeSearch.FirstInListIsFirstCollected | scripts/build_dataset.py:113-115 | the same agreement for a list |
| TreeSearch.FirstInFieldsIsFirstCollected | scripts/build_dataset.py:108-112 | the same agreement for a dict |
| TreeSearch.TryEnds | scripts/build_dataset.py:144-149 | a window found in a dict has the present start key's parsed instant and the parsed instant of some present end key |
| TreeSearch.SleepInstant | scripts/build_dataset.py:128-138 | a number always yields an instant, and a value that is neither a number nor a string yields none |
| TreeSearch.SleepInstantSpec | scripts/build_dataset.py:128-138 | parse_ts yields an instant exactly for a number or a non-blank string the parser accepts; a number becomes `int(v)`, such a string the parser's instant |
| TreeSearch.TryEndsSpec | scripts/build_dataset.py:144-149 | for a present start key, the end-key loop finds a window exactly when the start value parses and some end key is present and parses, and then it pairs the start instant with the first such end key |
| TreeSearch.TryStarts | scripts/build_dataset.py:142-149 | a window found in a dict starts at the parsed instant of some present start key |
| TreeSearch.TryStartsSpec | scripts/build_dataset.py:142-149 | the start-key loop returns the window of the first start key, GMT before Local, that pairs with an end key, and None exactly when no start key does |
| TreeSearch.WindowAtIff | scripts/build_dataset.py:141-149 | a dict holds a window of its own exactly when one of its start keys and one of its end keys are present and both parse |
| TreeSearch.WindowAt | scripts/build_dataset.py:141-149 | a window found at a node means the node is a dict, the window starts at the parsed instant of one of its start keys and ends at the parsed instant of one of its end keys |
| TreeSearch.SleepWindow | scripts/build_dataset.py:140-159 | a dict holding a window itself returns that window before looking below it; a number, string or null holds none |
| TreeSearch.SleepWindowInFields | scripts/build_dataset.py:150-153 | a dict's values yield no window exactly when none of them does, and a window found is the window of one of them |
| TreeSearch.SleepWindowInList | scripts/build_dataset.py:154-158 | a list yields no window exactly when none of its elements does, and a window found is the window of one of its elements |
| TreeSearch.Nodes | scripts/build_dataset.py:140-159 | the pre-order listing of a tree starts with the tree itself |
| TreeSearch.FirstWindowInSplit | scripts/build_dataset.py:150-158 | the first window in a concatenation comes from the first part unless the first part has none |
| TreeSearch.SleepWindowIsFirstInPreorder | scripts/build_dataset.py:140-161 | parse_sleep_window returns the window of the first node, in depth-first pre-order, whose keys parse; a dict whose timestamps fail does not stop the search |
| TreeSearch.ListWindowIsFirstInPreorder | scripts/build_dataset.py:154-158 | the same for the elements of a list |
| TreeSearch.FieldsWindowIsFirstInPreorder | scripts/build_dataset.py:150-153 | the same for the values of a dict |
| TreeSearch.GmtPreferred | scripts/build_dataset.py:125-149 | when both GMT keys parse, the window is the GMT pair |
| Grid.SlotCount | scripts/build_dataset.py:189-196 | the grid has at least one slot, and N slots of the step fit in the day while N + 1 do not |
| Grid.Within | scripts/build_dataset.py:209 | the window filter keeps no more points than the series has, and every kept point lies in [lo, hi) |
| Grid.WithinExact | scripts/build_dataset.py:209 | the window filter keeps every point whose instant lies in [lo, hi), as often as it occurs in the series, and no other point |
| Grid.WithinKeepsOrder | scripts/build_dataset.py:209 | filtering a time-ordered series leaves it time-ordered |
| Grid.Mean | scripts/build_dataset.py:209 | a bucket mean is missing exactly when the bucket is empty |
| Grid.Align | scripts/build_dataset.py:209-210 | the aligned column has exactly N slots |
| Grid.WithinNested | scripts/build_dataset.py:209 | filtering to the day and then to a bucket inside it equals filtering to the bucket |
| Grid.WithinEmptyIff | scripts/build_dataset.py:209 | a filtered window is empty exactly when no point lies in it |
| Grid.WithinKeepsRange | scripts/build_dataset.py:209 | filtering keeps values in range |
| Grid.AlignSlot | scripts/build_dataset.py:209-210 | slot k holds the mean of the points in [slot k, slot k + 1) |
| Grid.BucketInside | scripts/build_dataset.py:192-196 | every bucket lies inside [day_start, day_start + 24 h) |
| Grid.AlignMissingIff | scripts/build_dataset.py:209-210 | a slot is missing exactly when no point falls in its bucket |
| Grid.AlignIgnoresOutside | scripts/build_dataset.py:209-210 | points outside the grid's span do not affect the column |
| Grid.SlotFromSpan | scripts/build_dataset.py:209-210 | a slot depends only on the points inside the grid's span |
| Grid.SumBounds | scripts/build_dataset.py:209 | a sum of values in [lo, hi] lies between n * lo and n * hi |
| Grid.MeanBounds | scripts/build_dataset.py:209 | a bucket mean lies within the bounds of what it averages |
| Grid.AlignKeepsRange | scripts/build_dataset.py:208-210 | every aligned slot lies inside the metric's plausibility range |
| Grid.SleepFlags | scripts/build_dataset.py:247-255 | the flag column has N entries, each 0 or 1, and all 0 when no window was found |
| Grid.MarkSleep | scripts/build_dataset.py:247-255 | zeroing a column and setting 1 on the masked slots yields exactly the flag column |
| Grid.CeilDivIsLeast | scripts/build_dataset.py:253 | the first slot at or after an instant is the least k with k * step at or past it |
| Grid.SleepSlotsContiguous | scripts/build_dataset.py:253-254 | the flagged slots are exactly the slots t with start <= t < end, a contiguous run |
| GapFill.LastIndexBefore | scripts/build_dataset.py:267 | the index found holds a value and every slot between it and k is missing |
| GapFill.FirstIndexFrom | scripts/build_dataset.py:269 | the index found holds a value and every slot from k up to it is missing |
| GapFill.LastKnown | scripts/build_dataset.py:293 | the last known value is None exactly when every slot is missing |
| GapFill.FFill | scripts/build_dataset.py:267 | ffill keeps the length and every observed slot |
| GapFill.BFill | scripts/build_dataset.py:269 | bfill keeps the length and every observed slot |
| GapFill.Interp | scripts/build_dataset.py:274-276 | interpolation keeps the length and every observed slot |
| GapFill.Fill | scripts/build_dataset.py:264-279 | every policy keeps the length and every observed slot, and `none` leaves the column unchanged |
| GapFill.FFillIsLastEarlier | scripts/build_dataset.py:267 | ffill puts in each slot the value of the last observed slot at or before it |
| GapFill.BFillIsFirstLater | scripts/build_dataset.py:269 | bfill puts in each slot the value of the first observed slot at or after it |
| GapFill.FFillLeadingGap | scripts/build_dataset.py:266-267 | a slot stays missing after ffill exactly when it and every earlier slot are missing |
| GapFill.FFillTakesNearestEarlier | scripts/build_dataset.py:267 | a filled gap takes the value of the nearest earlier observation |
| GapFill.FFillAllMissing | scripts/build_dataset.py:267 | an all-missing column is unchanged by ffill |
| GapFill.BFillAllMissing | scripts/build_dataset.py:269 | an all-missing column is unchanged by bfill |
| GapFill.BFillCompletes | scripts/build_dataset.py:269 | bfill of a column whose last slot is known leaves no gap |
| GapFill.FFillLastSlot | scripts/build_dataset.py:267 | after ffill the last slot holds the column's last known value |
| GapFill.LerpBetween | scripts/build_dataset.py:274-276 | a point strictly inside the line segment lies between its end values, strictly when they differ |
| GapFill.InterpBetweenNeighbours | scripts/build_dataset.py:274-276 | an interior gap is filled between its two neighbouring observations, strictly when they differ |
| GapFill.InterpComplete | scripts/build_dataset.py:274-276 | with any observation interpolation leaves no gap; with none it changes nothing |
| GapFill.InterpLastSlot | scripts/build_dataset.py:274-276 | after interpolation the last slot holds the last known value |
| GapFill.FillComplete | scripts/build_dataset.py:264-279 | ffill_bfill and interpolate leave no gap when any slot is known; any policy leaves an all-missing column as it is |
| GapFill.InterpolateNeedsNoScans | scripts/build_dataset.py:274-279 | the ffill and bfill after interpolate change nothing |
| GapFill.FillKeepsLastKnown | scripts/build_dataset.py:264-279 | no policy changes the last known value of the column |
| Names.StrLtIrreflexive | scripts/build_dataset.py:37 | Python's string order is irreflexive |
| Names.StrLtAsymmetric | scripts/build_dataset.py:37 | Python's string order is asymmetric |
| Names.StrLtTransitive | scripts/build_dataset.py:37 | Python's string order is transitive |
| Names.StrLtTotal | scripts/build_dataset.py:37 | two different strings are ordered one way or the other |
| Names.SortedSeq | scripts/build_dataset.py:37 | sorted() of a set is strictly ascending and holds exactly the set's members, once each |
| Names.SortedUnique | scripts/build_dataset.py:37 | two strictly sorted lists of the same names are equal |
| Names.PrefixBefore | scripts/build_dataset.py:34 | split(c)[0] is the longest prefix free of c, and is followed by c when shorter than the string |
| Names.CountChar | scripts/build_dataset.py:35 | count(c) is at most the length and is zero exactly when c does not occur |
| Names.CountCharCount | scripts/build_dataset.py:35 | count(c) is exactly the number of positions holding c |
| Names.MatchesDayGlob | scripts/build_dataset.py:32 | a name matching `????-??-??_*.json` is never a `body_battery_*.json` name |
| Names.DayPrefix | scripts/build_dataset.py:34 | `name.split("_")[0]` is a prefix of the name holding no underscore, at most ten characters long for a name matching the day glob |
| Names.DayNames | scripts/build_dataset.py:32-36 | every discovered day is at most ten characters long; DiscoverDaysSpec states which names contribute a day |
| Names.DiscoverDays | scripts/build_dataset.py:30-37 | the loop returns the sorted set of day prefixes of the matching names that hold exactly two '-' |
| Names.DiscoverDaysSpec | scripts/build_dataset.py:30-37 | the days are strictly ascending, and a day is listed exactly when some matching name starts with it and it holds two '-' |
| Names.DayOfDatedFile | scripts/build_dataset.py:32-34 | for a dated file name without '_' in its first ten characters, the day is those ten characters |
| Names.BodyBatteryFiles | scripts/build_dataset.py:93 | the body-battery files are visited in strictly ascending name order, and they are exactly the names matching the glob |
| Names.IsErrorName | scripts/build_dataset.py:94 | a name containing "error" or "ERROR" counts as an error file, which the body-battery loader skips |
| DatasetBuilder.FilePairs | scripts/build_dataset.py:94-100 | a body-battery file contributes only values in [0, 100] |
| DatasetBuilder.BbPairs | scripts/build_dataset.py:92-100 | pairs_all holds only values in [0, 100] |
| DatasetBuilder.BodyBatterySeries | scripts/build_dataset.py:91-101 | the global body-battery series is strictly increasing, with values in [0, 100] |
| DatasetBuilder.LoadBodyBatterySeries | scripts/build_dataset.py:91-101 | the loop over sorted files produces exactly the specified global series |
| DatasetBuilder.LoadBodyBatteryFile | scripts/build_dataset.py:94-100 | one loop iteration skips "error" names, unreadable files and files that raise, and otherwise adds the file's pairs |
| DatasetBuilder.BodyBatteryLastWins | scripts/build_dataset.py:93-101 | a body-battery pair not overwritten by a later file or entry appears in the global series |
| DatasetBuilder.ErrorFilesIgnored | scripts/build_dataset.py:94-95 | a file whose name contains "error" contributes nothing, whatever it holds |
| DatasetBuilder.DayStart | scripts/build_dataset.py:189 | the day fails with BadDay(ds) exactly when the local-midnight parser rejects ds, and otherwise starts at the parsed instant |
| DatasetBuilder.Missing | scripts/build_dataset.py:212 | an absent metric is an all-missing column of the given length |
| DatasetBuilder.MetricColumn | scripts/build_dataset.py:207-226 | an absent file gives an all-missing column; the run fails exactly when the file is unreadable or raises; otherwise the column has N slots, all in range |
| DatasetBuilder.LoadMetric | scripts/build_dataset.py:207-226 | loading a metric file produces exactly the specified column or error |
| DatasetBuilder.LoadTotals | scripts/build_dataset.py:236-244 | both totals come from one read of the summary: None for an absent file, Unreadable for a file that does not parse, and otherwise the first number under the steps and kcal keys, in search order |
| DatasetBuilder.Totals | scripts/build_dataset.py:236-244 | no user-summary file gives no steps and no kcal; an unparseable file stops the run with Unreadable; otherwise steps (kcal) is None exactly when no steps (kcal) key holds a number anywhere in the file |
| DatasetBuilder.SleepWindowOf | scripts/build_dataset.py:246-255 | no sleep file gives no window; an unparseable file stops the run with Unreadable; a window found is parse_sleep_window of the file |
| DatasetBuilder.HasAny | scripts/build_dataset.py:257-259 | has_any holds exactly when some slot of hr, stress, resp or bb is observed |
| DatasetBuilder.KnownValues | scripts/build_dataset.py:282-293 | there are at most N known values, none exactly for an all-missing column and N exactly for a full one |
| DatasetBuilder.KnownValuesCount | scripts/build_dataset.py:282-293 | there is exactly one known value per observed slot |
| DatasetBuilder.KnownValuesAreObserved | scripts/build_dataset.py:282-292 | the known values are exactly the values of the observed slots: each comes from an observed slot, and every observed slot's value is among them |
| DatasetBuilder.KnownValuesInRange | scripts/build_dataset.py:290-292 | the known values of an in-range column are in range |
| DatasetBuilder.CoverageIsShare | scripts/build_dataset.py:282-285 | the coverage of a non-empty column is the number of observed slots divided by N |
| DatasetBuilder.CoverageBounds | scripts/build_dataset.py:282-285 | coverage k/N lies in [0, 1]; it is 0 exactly for an all-missing column and 1 exactly for a full one |
| DatasetBuilder.Coverage | scripts/build_dataset.py:282-285 | a coverage ratio lies in [0, 1]; CoverageIsShare gives its exact value |
| DatasetBuilder.MeanKnown | scripts/build_dataset.py:290-292 | a daily mean is None exactly when the column has no value |
| DatasetBuilder.MeanKnownInRange | scripts/build_dataset.py:290-292 | a daily mean of an in-range column is in range |
| DatasetBuilder.MinuteRows | scripts/build_dataset.py:304 | a kept day has exactly N minute rows |
| DatasetBuilder.ProcessDay | scripts/build_dataset.py:188-304 | the day body reads the files in the script's order and produces exactly the specified outcome |
| DatasetBuilder.AssembleDay | scripts/build_dataset.py:188-304 | a day whose date the parser rejects fails with BadDay; any error is BadDay of the day or names one of the day's own five files; a kept day has N minute rows and its own date |
| DatasetBuilder.FinishDay | scripts/build_dataset.py:257-304 | the day is dropped exactly when drop_empty_days is set and nothing was observed; a kept day has N minute rows and its own date |
| DatasetBuilder.DroppedIff | scripts/build_dataset.py:257-262 | a day is dropped exactly when --drop-empty-days is set and hr, stress, resp and bb are all missing before any filling |
| DatasetBuilder.KeptRows | scripts/build_dataset.py:243-279 | each minute row is at its slot instant, with hr, stress and resp as aligned, bb taken from the column filled by the configured policy (observed slots unchanged), and the day's steps, kcal and flag |
| DatasetBuilder.DailySummary | scripts/build_dataset.py:281-302 | the daily row has the day's date and totals; coverages k/N in [0, 1], the bb one measured after filling; hr, stress and resp means over the observed slots, None exactly for empty columns; the last observed bb; and a sleep flag of 1 exactly when some slot is flagged |
| DatasetBuilder.FullBodyBatteryCoverage | scripts/build_dataset.py:268-285 | under ffill_bfill or interpolate a day with any bb observation is kept and has bb coverage 1 |
| DatasetBuilder.DailyMeansInRange | scripts/build_dataset.py:207-293 | every daily metric lies in the range collect_pairs enforced for it |
| DatasetBuilder.LastKnownInRange | scripts/build_dataset.py:293 | the last known value of an in-range column is in range |
| DatasetBuilder.DayOutcomes | scripts/build_dataset.py:188 | there is one outcome per discovered day |
| DatasetBuilder.Absorb | scripts/build_dataset.py:188-304 | the first failure sticks: an earlier error is kept and a day's error replaces the tables; otherwise a kept day appends its daily row and a dropped day appends nothing |
| DatasetBuilder.Collect | scripts/build_dataset.py:185-304 | after the loop there are as many minute frames as daily rows, and no more than there are days; which frames and rows they are is stated by `CollectShape` |
| DatasetBuilder.RunDays | scripts/build_dataset.py:185-309 | a successful run has between one daily row and as many as there are days; `RunDaysRows` pins them as the kept days' rows in day order |
| DatasetBuilder.ErrorStops | scripts/build_dataset.py:188-304 | after the first failing day, later days change nothing |
| DatasetBuilder.CollectShape | scripts/build_dataset.py:185-304 | the loop succeeds exactly when every day does; its tables are then exactly the frames and the daily rows of the kept days, one each, in day order (`KeptFrames`, `KeptDailies`), with none for a dropped day |
| DatasetBuilder.CollectIsKept | scripts/build_dataset.py:287-304 | each kept day appends its frame and its daily row once, in loop order, and a dropped day appends nothing: a successful loop ends with `KeptFrames` and `KeptDailies` |
| DatasetBuilder.KeptDatesAreKeptDays | scripts/build_dataset.py:188-289 | the daily row of day ds is dated ds, so the date column of the kept rows is the list of kept days (`KeptDays`) |
| DatasetBuilder.KeptDaysAscending | scripts/build_dataset.py:37 | the kept days of a strictly ascending day list are strictly ascending and are among the days |
| DatasetBuilder.RunDaysRows | scripts/build_dataset.py:188-309 | a successful day loop's daily table is the kept days' rows and its minute table their frames laid end to end, in day order; its dates are exactly the kept days |
| DatasetBuilder.DayFacts | scripts/build_dataset.py:188-304 | a day's failure is about reading its inputs, and a kept day has N minute rows and its own date |
| DatasetBuilder.DayOutcomesFacts | scripts/build_dataset.py:188-304 | the same for every day of the loop |
| DatasetBuilder.ConcatLength | scripts/build_dataset.py:309 | concatenating frames of N rows gives N times as many rows |
| DatasetBuilder.CollectErrorIsADayError | scripts/build_dataset.py:188-304 | a failed loop reports the error of one of its days |
| DatasetBuilder.RunDaysOutcome | scripts/build_dataset.py:185-309 | the loop ends with NoMinuteData exactly when every day was dropped; otherwise it produces at least one row, N minute rows per daily row, and only discovered dates |
| DatasetBuilder.BuildDataset | scripts/build_dataset.py:179-309 | main discovers the days, loads body battery and runs the day loop, producing exactly the specified result |
| DatasetBuilder.BuildSpec | scripts/build_dataset.py:179-311 | no discovered day gives NoDays; a successful build has between one daily row and as many as there are discovered days; `BuildTables` pins their dates |
| DatasetBuilder.DayLoop | scripts/build_dataset.py:185-309 | the imperative loop over days appends exactly the collected frames and rows, stops at the first failure, and fails when no frame was produced |
| DatasetBuilder.BuildNoDaysIff | scripts/build_dataset.py:179-181 | the run stops for lack of days exactly when no file name yields a day |
| DatasetBuilder.BuildNoMinuteDataIff | scripts/build_dataset.py:306-307 | the run stops for lack of minute data exactly when days exist and every one of them was dropped |
| DatasetBuilder.BuildTables | scripts/build_dataset.py:179-311 | a successful run has at least one daily row, N minute rows per daily row, and only discovered dates; its date column is exactly the kept days, strictly ascending, one row per kept day |
| UpdateRecent.ChunkSize | scripts/update_recent.py:67 | the chunk size is max(1, chunk_days) |
| UpdateRecent.Chunks | scripts/update_recent.py:66-81 | the loop produces no chunk exactly when the start is after the end |
| UpdateRecent.DownloadChunks | scripts/update_recent.py:66-81 | the while loop emits exactly the specified chunk sequence |
| UpdateRecent.ChunkBounds | scripts/update_recent.py:69-70 | every chunk lies in [start, end], is non-empty and at most chunk days long, and all but the last are exactly chunk days |
| UpdateRecent.ChunksContiguous | scripts/update_recent.py:68-81 | there are no chunks exactly when start > end; the first chunk starts at start, the last ends at end, and each chunk starts the day after the previous one ends |
| UpdateRecent.ChunksPartition | scripts/update_recent.py:69-81 | the chunks cover exactly the days of [start, end] and no two share a day |
| UpdateRecent.LastDateFromRaw | scripts/update_recent.py:49-57 | the result is None exactly when no matching name has a parseable prefix, and otherwise the largest parsed date |
| UpdateRecent.RawDates | scripts/update_recent.py:49-56 | a date is collected exactly when some file matching the day glob has a prefix that parses to it |
| UpdateRecent.LastRawDate | scripts/update_recent.py:49-57 | None exactly when no date was collected, otherwise the largest collected date |
| UpdateRecent.MaxOfSet | scripts/update_recent.py:57 | the maximum of a non-empty set of dates is a member that bounds them all |
| UpdateRecent.EndDate | scripts/update_recent.py:60-63 | "yesterday" gives the day before today; any other argument gives its parsed date, and fails with that argument exactly when it does not parse |
| UpdateRecent.StartDate | scripts/update_recent.py:106 | with no last date the start is the end date, otherwise the day after the last date |
| UpdateRecent.Downloads | scripts/update_recent.py:108-110 | one extraction command per chunk, in order |
| UpdateRecent.MissingDaysChunked | scripts/update_recent.py:106-110 | the chunks from the start date to the end date cover exactly the days after the last date up to the end date (only the end date when there is no last date), in disjoint chunks of at most max(1, chunk_days) days |
| UpdateRecent.PlanUpdate | scripts/update_recent.py:101-125 | main launches exactly the specified commands, or fails on an unparseable end date |
| UpdateRecent.Plan | scripts/update_recent.py:101-125 | the plan fails exactly when the end date does; on success its last command is the rebuild exactly when rebuild is asked for |
| UpdateRecent.LaunchedMissingDays | scripts/update_recent.py:106-125 | for a given last date and end date, the rebuild comes only last and only when asked; a day is downloaded exactly when it lies after the last date up to the end (only the end date when there is no last date); chunks span at most the chunk size and do not overlap |
| UpdateRecent.ProcessedDateTakesPrecedence | scripts/update_recent.py:101-103 | with a date from the processed table, the raw file names play no part |
| UpdateRecent.PlanDownloadsMissingDays | scripts/update_recent.py:101-125 | main fails exactly when the end date does not parse; otherwise its downloads cover exactly the days after the last date present up to the end date (only the end date when nothing is present), in disjoint chunks of at most max(1, chunk_days) days, and the rebuild, when asked for, is the last command |
| UpdateRecent.LaunchedCommands | scripts/update_recent.py:108-125 | the launched commands are one download per chunk, in order, then the rebuild when asked for; a day is downloaded exactly when a chunk covers it |
| UpdateRecent.NothingToDownload | scripts/update_recent.py:106-112 | when the last date is at or past the end date, only the rebuild is launched, if asked for |

## Left out

- File and process input/output is not modelled. This covers reading and
  globbing files, `exists()`, parquet and CSV writing, `subprocess.run`,
  `print`, argparse and `find_repo_root`. The raw directory is a map from
  names to parsed documents, and launched commands are a list of values.
- `last_date_from_processed` is not modelled. It reads a parquet table, so
  its result is an input of `UpdateRecent.Plan`.
- A failing subprocess (`check=True`) is not modelled. The plan lists the
  commands that would be launched.
- `scripts/extract_raw.py` is not part of this model. It is a network client.
- Time-zone conversion is not modelled. This covers `tz_convert`,
  `tz_localize`, the local midnight of a day, ISO date-time parsing, `int()`
  on a string, `strptime` and the "yesterday" clock. Each is a parameter:
  `Parsers`, `parseDate` and `today`.
- The day spans 24 absolute hours, as `pd.Timedelta(days=1)` does, so the
  23- or 25-hour days around a daylight-saving change are not special cases.
- Floating point is not modelled: values are exact reals. NaN, `pd.NA`
  versus NaN, and `pd.to_numeric` are not distinguished from a missing slot,
  and rounding in means and interpolation is not modelled.
- JSON booleans are not modelled. Python counts `True`/`False` as numbers in
  `isinstance(v, (int, float))`; the JSON type here has no booleans.
- Grid.SlotCount requires a step of at most one day. With a longer step the
  source builds an empty grid and then fails or drops the day.
- GapFill.Interp weights by slot index where pandas weights by time. Grid
  slots are evenly spaced, so the two give the same values.
- GapFill.InterpBetweenNeighbours states that an interior gap lies between its
  neighbours. Monotonicity across several consecutive gaps is not stated.
- The `bb_global.empty` branch is not modelled separately. Aligning an empty
  series gives the same all-missing column.
- `ToLower` and `IsSpace` cover ASCII and the usual whitespace characters,
  not full Unicode case folding.
- The order in which `sort_index` breaks ties is taken to be stable, so the
  last pair written for an instant wins.
- The rebuild command's arguments are not modelled: the interpreter path,
  `--raw`, `--out`, `--tz` and the fixed `--drop-empty-days`. The plan
  records only that the rebuild is launched, after the downloads.
- The progress messages `update_recent.py` prints before downloading are not
  modelled.
- pandas' timestamp range is not modelled. Instants are unbounded integers.
  In the source, `pd.to_datetime(..., unit="ms")` in `pairs_to_series`
  (scripts/build_dataset.py:85) raises for an instant outside the
  datetime64[ns] range (about years 1677 to 2262) or outside int64. No
  `try` surrounds it for the global body-battery series (line 101) or for
  the per-day metrics (lines 207-221), so one such pair stops the run. The
  model keeps such a pair.
- TreeSearch.SleepInstant accepts any number. In the source, `parse_ts`
  (scripts/build_dataset.py:130) raises the same way for an out-of-range
  number, and nothing catches it at line 250.
- TreeSearch.SleepInstant also cannot stop the run for a string. For a sleep
  time without a zone, `t.tz_localize(tz)` (scripts/build_dataset.py:136)
  raises when the local time falls in a daylight-saving gap or overlap, and
  nothing catches it at line 250. The parameter `instantOf` can only answer
  "no instant", so the model goes on searching where the source stops.
- UpdateRecent.EndDate takes today's date as the parameter `today`, so it
  cannot fail for the time zone. In the source, `ZoneInfo(tz)`
  (scripts/update_recent.py:62) raises for an unknown zone name when the end
  argument is "yesterday".
- Python's `date` range (years 1 to 9999) is not modelled. Days are
  unbounded integers, so the `OverflowError` that update_recent.py:70, :81
  and :106 raise for a huge `--chunk-days` or a last date of 9999-12-31 is
  not reproduced.
