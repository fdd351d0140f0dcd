# Sportsbooks analyzer: the table pipeline, modelled in Dafny

The analyzer scrapes a comparison site for each sport's two-way betting
odds. It turns every price item of the page into a flat record, then cleans
those records into one row per (match, bookmaker) with decimal prices. A
second script keeps only today's games. Game results come from an odds
service, and three reconciliation scripts join the results to the odds and
classify the outcomes.

This project models that pipeline around its I/O:

- **Extraction** (`Extraction`). The three revisions of `parse_html_to_table`
  run over an already-parsed tree of games, team sections and price items.
  They differ only in how the kick-off text is written: kept as scraped
  (`html_to_table.py`), re-rendered as `"%Y-%m-%d %H:%M:%S"` Eastern time
  (`scripts/save_odds.py`), or re-rendered as `"%b %d, %Y, %I:%M %p"`
  Eastern time (`archive/compiler.py`).
- **Normalisation** (`AmericanOdds`, `Cleaning`, `SaveOdds`, `Compiler`,
  `TableCleanup`). The modules cover:
  - `american_to_decimal`, with exact rationals in place of rounded floats;
  - the match/bookmaker grouping that keeps only groups of exactly two rows;
  - the three loop shapes: a list of records in the saver, seven parallel
    lists in the compiler and six in the cleanup script;
  - the saver's today filter.

  The cleanup script reads its table from a CSV file, where a missing cell
  is `NaN`, and no mask matches `NaN`. So a match whose date or team cell is
  missing, and a bookmaker whose cell is missing, give no quote.
- **Daily lists** (`DatedGames`, `TodayList`, `ArchiveTodayList`). These keep
  the rows dated today. `today_list.py` also keeps one row per (Sport,
  Match Date, Home Team, Away Team), and drops the rows whose Sport or team
  cell is missing, as `groupby` does. Both sort the rows by kick-off. A
  missing date reads as `NaT` ("not a time"), which matches no day, so its
  row is dropped. Any other date stops the script when it is not in the
  format or when its time lies outside the range of pandas' nanosecond
  timestamps (1677-09-21 to 2262-04-11).
- **Results** (`ScoresApi`, `ProcessResults`, `TodaysResults`). The two
  results scripts build rows from the games the odds service returned; that
  response is an input value. The modules cover the sport-key lookup, the
  filter against the odds table, the score loop and the status.
- **Reconciliation** (`Merge`, `Records`, `YesterdaysSync`, `SyncStats`,
  `SyncResults`). The three sync scripts each have their own join and their
  own tie rules:
  - `scripts/yesterdays_sync.py` normalises keys, then takes an inner join
    with favorite/underdog/Draw verdicts;
  - `scripts/sync.py` takes an outer join and `dropna`, then computes
    per-bookmaker statistics;
  - `sync.py` takes a left join, then computes Home/Away/Tie/Not
    Completed/Unknown results.

Supporting modules:

- `Wrappers`: `Option` and `Result`.
- `Seqs`: the pandas operations used here as functions on sequences. These
  are `unique`, `drop_duplicates`, boolean filters, `concat`, a stable sort
  and the loop folds.
- `Text`: `strip`, `lower`, `split`, `replace` and `int()`.
- `Timestamps`: the two `strftime` formats, a strict `strptime` and the
  `NaT` value of pandas.

Where the source appends in a loop, the model is a `method` with that loop.
The method is proved equal to a specification function, and the properties
are lemmas about that function. Where the source is a pipeline of
expressions, the model is a function with lemmas.

## Model

| member | source | states |
|---|---|---|
| AmericanOdds.ToDecimal | scripts/save_odds.py:64-67 | a positive price gives 1 + a/100 and any other gives 1 + 100/abs(a); zero, which divides by zero, is the only error; every decimal price is above 1 |
| AmericanOdds.AmericanToDecimal | scripts/save_odds.py:62-67 | every " ML" is removed and `int()` is applied; the result is an error exactly when the rest is not an integer or is zero, and a decimal price above 1 otherwise |
| AmericanOdds.PositiveIncreasing | scripts/save_odds.py:64-65 | for positive prices the decimal price strictly increases with the price |
| AmericanOdds.NegativeIncreasing | scripts/save_odds.py:66-67 | for negative prices the decimal price strictly increases with the price |
| AmericanOdds.EvenMoney | scripts/save_odds.py:64-67 | -100 and +100 both give exactly 2 |
| AmericanOdds.StandardIncreasing | archive/compiler.py:79-84 | over prices of size at least 100 the conversion keeps order, across the sign split |
| AmericanOdds.StandardRoundTrip | archive/table_cleanup.py:23-29 | on prices of size at least 100 the decimal price determines the American price (-100 and +100 coincide) |
| AmericanOdds.ToAmerican | archive/table_cleanup.py:26-29 | the inverse formula: a decimal price of at least 2 gives a price of at least +100, and a lower one a price below -100 |
| AmericanOdds.NonStandardCollision | archive/table_cleanup.py:26-29 | off the standard range the conversion is not one-to-one: +50 and -200 both give 1.5 |
| AmericanOdds.PriceText | scripts/save_odds.py:63 | a price written "<integer> ML", or as the bare integer, converts to that integer's decimal price |
| AmericanOdds.NoSpaceInNumber | scripts/save_odds.py:63 | an integer's text contains no space, so removing " ML" leaves it whole |
| Text.Strip | html_to_table.py:22-23 | `strip()` removes leading and trailing whitespace and leaves no whitespace at either end |
| Text.TrimLeft | html_to_table.py:29 | `lstrip()`: the result is a suffix with no leading whitespace |
| Text.TrimRight | html_to_table.py:33 | `rstrip()`: the result is a prefix with no trailing whitespace |
| Text.TrimLeftRemovesSpace | html_to_table.py:29 | what the left strip removes is all whitespace |
| Text.TrimRightRemovesSpace | html_to_table.py:34 | what the right strip removes is all whitespace |
| Text.StripIdempotent | html_to_table.py:22-23 | stripping twice is stripping once |
| Text.StripPadding | html_to_table.py:22-23 | whitespace padding around an unpadded text is exactly what `strip()` removes |
| Text.StripUnpadded | html_to_table.py:22-23 | a text without edge whitespace is unchanged by `strip()` |
| Text.Lower | scripts/yesterdays_sync.py:38 | `lower()` keeps the length and lowers each character on its own: an ASCII capital becomes its small letter and everything else is kept |
| Text.LowerNoUpper | scripts/yesterdays_sync.py:38 | lowering a text without upper-case letters changes nothing |
| Text.Normalize | scripts/yesterdays_sync.py:38-39 | the key normalisation leaves an unpadded text with no upper-case letter |
| Text.NormalizeIdempotent | scripts/yesterdays_sync.py:36-39 | normalising an already normalised key changes nothing |
| Text.NormalizeIgnoresPaddingAndCase | scripts/yesterdays_sync.py:36-39 | keys that differ only in edge whitespace and ASCII case normalise to the same key |
| Text.Find | html_to_table.py:21 | the first occurrence of a separator, or none when it does not occur |
| Text.Split | html_to_table.py:21 | `split(sep)` yields at least one piece |
| Text.SplitJoin | html_to_table.py:21 | joining the pieces of a split with the separator gives the text back |
| Text.SplitPiecesFree | html_to_table.py:21 | no piece of a split contains the separator |
| Text.SplitFirst | html_to_table.py:21-22 | the first piece is the text before the first occurrence of the separator, or all of it |
| Text.RemoveAll | scripts/save_odds.py:63 | `replace(pat, '')` never lengthens the text |
| Text.RemoveTrailing | scripts/save_odds.py:63 | a text without the pattern's first character is left alone, and the same text followed by the pattern loses exactly the pattern |
| Text.ParseUnpadded | scripts/save_odds.py:63 | `int()` on a text without edge whitespace reads the text as it is |
| Text.ParseIntPadded | scripts/save_odds.py:63 | an integer's text with whitespace around it reads back as that integer |
| Text.ParsePadded | scripts/save_odds.py:63 | `int()` ignores surrounding whitespace |
| Text.IntRoundTrip | scripts/save_odds.py:63 | `int(str(n)) == n` for every integer |
| Text.NatToStringValue | scripts/save_odds.py:63 | the decimal text of a natural number consists of digits denoting that number |
| Timestamps.OrdinalOrder | today_list.py:20 | the sort key orders times exactly as the calendar does and identifies equal times |
| Timestamps.MonthNumberAbbrev | today_list.py:8 | the `%b` abbreviation of a month reads back as that month |
| Timestamps.FormatUs | today_list.py:23 | the `"%b %d, %Y, %I:%M %p"` rendering has 22 characters |
| Timestamps.FormatIso | scripts/save_odds.py:32 | the `"%Y-%m-%d %H:%M:%S"` rendering has 19 characters |
| Timestamps.Hour12 | today_list.py:23 | `%I` is an hour from 1 to 12 |
| Timestamps.ParseUs | today_list.py:8 | a parsed text denotes a valid calendar time |
| Timestamps.ParseFormatUs | today_list.py:8-23 | formatting a time then parsing it gives the time back |
| Timestamps.FormatParseUs | today_list.py:8-23 | a text the parser accepts is the canonical rendering of the time it denotes, so it round-trips unchanged |
| Timestamps.FormatUsFields | today_list.py:23 | each digit field of the rendering reads back as the time's field |
| Timestamps.ParsedFields | today_list.py:8 | the fields the parser reads, rendered again, give back the digit places of the text |
| Extraction.UpTo | html_to_table.py:21-22 | the text before the first occurrence of a separator is a prefix of the text |
| Extraction.SplitTitle | html_to_table.py:21-23 | the title fails exactly when it has no " vs "; otherwise both teams are unpadded |
| Extraction.SplitTitleIsSplit | scripts/save_odds.py:37-39 | the teams are the stripped first two pieces of `split(' vs ')`, and any further pieces are ignored |
| Extraction.ItemRows | html_to_table.py:32-44 | one record per price item of a section |
| Extraction.ConvertDate | scripts/save_odds.py:28-35 | the `try` block writes the date its revision renders, or the scraped text when it does not parse |
| Extraction.AppendSections | scripts/save_odds.py:41-57 | the two inner loops append the records of a game's sections, in order |
| Extraction.ParseHtmlToTable | scripts/save_odds.py:18-59 | the three nested loops produce exactly the game-by-game extraction, or the first title error |
| Extraction.SectionRowsCount | archive/compiler.py:45-61 | one record per price item of a game's sections |
| Extraction.GameRowsCount | archive/compiler.py:41-61 | one record per price item of a game |
| Extraction.RowCount | html_to_table.py:16-44 | the table has exactly one record per (game, section, item) of the page |
| Extraction.ExtractFails | archive/compiler.py:41-43 | extraction fails exactly when some game's title lacks " vs " |
| Extraction.ExtractAppend | html_to_table.py:16-44 | the records of two runs of games are the records of the first run followed by those of the second |
| Extraction.ItemRowAt | html_to_table.py:32-44 | item k becomes record k, with its stripped price and bookmaker and the section's team |
| Extraction.SectionRowsFields | html_to_table.py:28-34 | every record of a section carries the section's stripped team and a stripped price and bookmaker |
| Extraction.GameRowsShareMatch | html_to_table.py:37-43 | all records of a game share its date and its two teams |
| Extraction.UnparsedDateKept | scripts/save_odds.py:28-35 | a kick-off that does not parse is written as scraped, and the game is not dropped |
| Extraction.UsDateParses | archive/compiler.py:30-35 | the compiler's re-rendered date parses back to the converted time |
| Extraction.UsDateParsesIff | archive/compiler.py:28-39 | the compiler's written date parses as `"%b %d, %Y, %I:%M %p"` exactly when the scraped text does |
| Extraction.IsoDateShape | scripts/save_odds.py:32 | a converted date is written in the shape "YYYY-MM-DD HH:MM:SS": 19 characters with its dashes, space and colon in place |
| Cleaning.Keys | scripts/save_odds.py:71 | the key columns (Match Date, Home Team, Away Team) of every row |
| Cleaning.Bookmakers | scripts/save_odds.py:78 | the Bookmaker column of every row |
| Cleaning.BookmakerQuote | scripts/save_odds.py:81-93 | a bookmaker gives at most one quote for a match, and one exactly when it has two rows for it |
| Cleaning.WithSport | scripts/save_odds.py:85-93 | tagging with the sport keeps one row per quote |
| Cleaning.WithSportAppend | scripts/save_odds.py:85 | tagging distributes over appending |
| Cleaning.WithSportMember | scripts/save_odds.py:85-93 | a tagged row carries the call's sport and a quote of the table |
| Cleaning.TaggedAppend | scripts/save_odds.py:85 | appending a step's tagged quotes is appending to the tagged table |
| Cleaning.TaggedTableRows | archive/compiler.py:106-116 | every output row has the call's sport, and the output has at most half as many rows as the input |
| Cleaning.TeamOddsFirstRow | scripts/save_odds.py:82-83 | the price read is the first row naming the team; no such row is an error |
| Cleaning.CleanTableQuotes | scripts/save_odds.py:78-93 | a quote is in the output exactly when it comes from a (match, bookmaker) group of exactly two rows whose team prices convert |
| Cleaning.QuoteFromGroup | scripts/save_odds.py:79-83 | every quote comes from its group of exactly two rows and carries that group's converted prices |
| Cleaning.GroupGivesQuote | archive/table_cleanup.py:40-53 | every group of exactly two rows whose prices convert gives its quote |
| Cleaning.RowInGroups | archive/table_cleanup.py:32-41 | every row lies in the group of its own match and bookmaker, and the loops visit that group |
| Cleaning.QuoteOfMatch | archive/table_cleanup.py:32-53 | a quote produced for a match carries that match's key and comes from a group of two rows |
| Cleaning.BookmakerQuoteShape | archive/table_cleanup.py:44-53 | a bookmaker's quote has the match key, the bookmaker and the two converted team prices |
| Cleaning.CleanTableSize | archive/table_cleanup.py:44 | twice the number of output rows is at most the number of input rows |
| Cleaning.MatchQuotesSize | scripts/save_odds.py:78-81 | twice a match's quotes is at most its number of rows |
| Cleaning.CleanTableFails | scripts/save_odds.py:81-83 | cleaning fails exactly when some group of two rows lacks a team row or has a price that does not convert |
| Cleaning.GroupOk | scripts/save_odds.py:81-83 | a row of a successful cleaning is in no failing group |
| Cleaning.FailingRow | scripts/save_odds.py:81-83 | a failing match has a row whose group fails |
| Cleaning.CleanTableMatchOrder | scripts/save_odds.py:71 | matches come out in the order of their first row in the table |
| Cleaning.MatchQuotesTagged | scripts/save_odds.py:71-93 | the quotes produced for a match carry its key |
| Cleaning.MatchQuotesBookmakerOrder | archive/table_cleanup.py:40 | within a match, quotes come out in the order of each bookmaker's first row |
| SaveOdds.CleanTable | scripts/save_odds.py:61-95 | `clean_table(df, sport)` returns exactly the tagged cleaned table, or its first conversion error |
| SaveOdds.CleanTableWith | scripts/save_odds.py:69-95 | the match loop builds the tagged cleaned table for any price conversion |
| SaveOdds.AppendMatch | scripts/save_odds.py:72-93 | one turn of the match loop appends that match's tagged quotes |
| SaveOdds.AppendBookmakers | scripts/save_odds.py:78-93 | the bookmaker loop appends the match's quotes, bookmaker by bookmaker |
| SaveOdds.AddBookmaker | scripts/save_odds.py:79-93 | one turn of the bookmaker loop appends that bookmaker's tagged quote, if any |
| SaveOdds.BookmakerRows | scripts/save_odds.py:81-93 | a bookmaker with exactly two rows gives its tagged quote, and one with any other count gives nothing |
| SaveOdds.TodayRows | scripts/save_odds.py:117-119 | the today filter never adds rows |
| SaveOdds.TodayRowsFails | scripts/save_odds.py:117 | the date conversion fails exactly when some date can be read neither as a time nor as a missing value (`NaT`) |
| SaveOdds.TodayRowsMember | scripts/save_odds.py:117-119 | a row survives exactly when its date reads as a time on today's date, and is then written in the converted form |
| SaveOdds.TodayRowsDated | scripts/save_odds.py:119 | every surviving row is dated today |
| SaveOdds.TodayRowsAllMissing | scripts/save_odds.py:117-119 | missing dates read as `NaT`: they neither stop the conversion nor survive the filter |
| Compiler.ColumnsOf | archive/compiler.py:100-106 | the seven lists of a table are in lockstep, one entry per row |
| Compiler.Frame | archive/compiler.py:108-116 | the frame of the lists has one row per list entry |
| Compiler.ColumnsOfEntries | archive/compiler.py:100-106 | entry i of each list comes from row i of the table |
| Compiler.FrameOfColumns | archive/compiler.py:108-116 | building the frame from a table's lists gives the table back |
| Compiler.ColumnsOfFrame | archive/compiler.py:108-116 | lists in lockstep are the lists of their frame |
| Compiler.ColumnsOfSnoc | archive/compiler.py:100-106 | pushing a row onto every list is appending it to the table |
| Compiler.CleanTable | archive/compiler.py:65-118 | the compiler's `clean_table` returns exactly the tagged cleaned table |
| Compiler.CleanTableWith | archive/compiler.py:86-118 | the parallel-list loops build the tagged cleaned table for any price conversion |
| Compiler.AppendMatch | archive/compiler.py:87-106 | one turn of the match loop pushes that match's tagged quotes onto all seven lists in lockstep |
| Compiler.AppendBookmaker | archive/compiler.py:94-106 | one bookmaker pushes at most one entry onto each list, in lockstep |
| TableCleanup.ColumnsOf | archive/table_cleanup.py:48-53 | the six lists of a table are in lockstep, one entry per quote |
| TableCleanup.Frame | archive/table_cleanup.py:56-61 | assigning the lists as columns gives one row per entry |
| TableCleanup.ColumnsOfEntries | archive/table_cleanup.py:48-53 | entry i of each list comes from quote i |
| TableCleanup.FrameOfColumns | archive/table_cleanup.py:55-61 | the frame of a table's lists is the table |
| TableCleanup.ColumnsOfFrame | archive/table_cleanup.py:55-61 | lists in lockstep are the lists of their frame |
| TableCleanup.ColumnsOfSnoc | archive/table_cleanup.py:48-53 | pushing a quote onto every list is appending it to the table |
| TableCleanup.CleanUp | archive/table_cleanup.py:4-61 | the script's table is exactly the cleaned table of the rows as `read_csv` reads them, or its first error; the price conversion sees the `Price` cells as typed: a column of numbers, or a missing price, raises at `.replace`, and text goes through `american_to_decimal` |
| TableCleanup.CleanUpNumeric | archive/table_cleanup.py:23-46 | on a `Price` column of integers and missing cells the script fails exactly when some match has a bookmaker with two rows whose key and bookmaker hold values, and otherwise writes an empty table |
| TableCleanup.CleanUpWith | archive/table_cleanup.py:32-61 | the double loop builds that cleaned table for any price conversion |
| TableCleanup.AppendMatch | archive/table_cleanup.py:33-53 | one turn of the match loop pushes that match's quotes onto all six lists in lockstep; a key with a `NaN` cell selects no row, and neither does a `NaN` bookmaker |
| TableCleanup.CsvQuoteOfMatch | archive/table_cleanup.py:33-53 | a quote of one match carries its key, which has no `NaN` cell, and a bookmaker that is not `NaN`, and comes from a two-row group with its prices |
| TableCleanup.CsvCleanTableQuotes | archive/table_cleanup.py:32-53 | a quote is in the table exactly when its key and bookmaker hold values, its group has exactly two rows, and those rows give its two prices |
| TableCleanup.CsvQuoteInTable | archive/table_cleanup.py:32-53 | a group of two rows with a known key and bookmaker whose rows give both prices puts its quote in the table |
| TableCleanup.CsvCleanTableFails | archive/table_cleanup.py:41-46 | the script fails exactly when a two-row group whose key and bookmaker hold values lacks a team's row or has a price that does not convert |
| TableCleanup.CsvCleanTableKnown | archive/table_cleanup.py:33-41 | on a table without a missing key or bookmaker cell the script computes `clean_table`, so every `Cleaning` property carries over |
| TableCleanup.CsvCleanTableMatchOrder | archive/table_cleanup.py:13 | matches come out in the order of their first row in the table |
| TableCleanup.AppendBookmaker | archive/table_cleanup.py:41-53 | one bookmaker pushes at most one entry onto each list, in lockstep |
| Seqs.Distinct | scripts/sync.py:38 | `unique()`: the same elements, each once, and never more of them |
| Seqs.DistinctFirstAppearanceOrder | scripts/sync.py:38 | `unique()` lists elements in order of first appearance |
| Seqs.DistinctBy | scripts/save_odds.py:71 | `drop_duplicates()` on a key never lengthens the table |
| Seqs.DistinctByMember | scripts/save_odds.py:71 | a row is kept exactly when it is the first of its key |
| Seqs.DistinctByKeys | scripts/save_odds.py:71 | every key of the table survives deduplication |
| Seqs.DistinctByUnique | scripts/save_odds.py:71 | each key appears once after deduplication |
| Seqs.Select | scripts/save_odds.py:72-76 | a boolean filter keeps exactly the rows with the key, and no more rows than the table has |
| Seqs.SelectMultiset | scripts/save_odds.py:72-76 | each row with the key is kept as often as the table has it, and no other row |
| Seqs.SelectAppend | scripts/save_odds.py:72-76 | the filter keeps table order: it distributes over concatenation and keeps a single row exactly when it has the key |
| Seqs.SortBy | today_list.py:20 | `sort_values` gives a sorted permutation |
| Seqs.ConcatFails | scripts/save_odds.py:71-93 | a loop of appending steps fails exactly when some step fails |
| Seqs.ConcatMember | scripts/save_odds.py:71-93 | a row of the loop's output comes from some step, and every row of every step is there |
| Seqs.FoldFails | results.py:148-152 | a score loop fails exactly when some entry fails |
| Seqs.Last | results.py:148-152 | the last entry with a property, or none when no entry has it |
| Records.ReadScore | scripts/yesterdays_sync.py:42-43 | an empty score cell reads as missing |
| Records.ReadScoreIsInt | scripts/yesterdays_sync.py:42-43 | a cell `to_numeric` reads as a number holds the same number for Python's `int()` |
| Records.ReadScoreRejectsUnderscore | scripts/yesterdays_sync.py:42-43 | digits grouped by `_` are a number for `int()` and missing for `to_numeric` |
| Records.ReadScoreRejectsWideSpace | scripts/yesterdays_sync.py:42-43 | an integer after whitespace outside ASCII is a number for `int()` and missing for `to_numeric` |
| Records.ReadWrittenScore | scripts/yesterdays_sync.py:42-43 | a score written as an integer reads back as that integer |
| Merge.PairWith | scripts/yesterdays_sync.py:65-70 | a left row paired with each of its matches, in order |
| Merge.InnerMember | scripts/yesterdays_sync.py:65-70 | the inner join holds exactly the pairs of rows with equal keys |
| Merge.InnerSize | scripts/yesterdays_sync.py:65-70 | the inner join has one row per match of each left row, summed |
| Merge.LeftJoinMember | sync.py:15-18 | the left join pairs a row with every right row of its key, or with nothing when there is none |
| Merge.LeftJoinSize | sync.py:15-18 | the left join has the matches of each left row plus one row per unmatched left row, so it never loses a left row |
| Merge.Unmatched | scripts/sync.py:25-31 | the right rows whose key no left row has |
| Merge.DropMissingRight | scripts/sync.py:34 | `dropna` on the right columns never adds rows |
| Merge.DropMember | scripts/sync.py:34 | a row survives `dropna` exactly when its right part is present |
| Merge.OuterDropMember | scripts/sync.py:25-34 | after the outer join and `dropna`, a row is a matched pair or an odds row no result has; results without odds are gone |
| YesterdaysSync.NormalizeOddsColumn | scripts/yesterdays_sync.py:38 | normalising an odds column keeps the number of rows |
| YesterdaysSync.NormalizeResultColumn | scripts/yesterdays_sync.py:39 | normalising a results column keeps the number of rows |
| YesterdaysSync.NormalizeKeys | scripts/yesterdays_sync.py:36-39 | the column loop leaves both tables with their three key columns normalised and nothing else changed |
| YesterdaysSync.NormalizedKeysStay | scripts/yesterdays_sync.py:36-39 | normalising the keys is idempotent |
| YesterdaysSync.WinnerSideBlind | scripts/yesterdays_sync.py:54-57 | the verdict does not depend on which side was at home |
| YesterdaysSync.WinnerCases | scripts/yesterdays_sync.py:46-61 | the verdict is missing exactly when a score is; otherwise it is Draw on equal scores, underdog when the winner's price is strictly higher and favorite otherwise, equal prices included |
| YesterdaysSync.SyncYesterdaysData | scripts/yesterdays_sync.py:36-96 | the script's output is the inner join of the normalised tables with verdicts, or failure when it is empty |
| YesterdaysSync.SyncRowsMember | scripts/yesterdays_sync.py:65-85 | every output row pairs a results row with an odds row of the same key, carrying its verdict, and every such pair is present |
| YesterdaysSync.SyncRowsEmpty | scripts/yesterdays_sync.py:74-82 | the sync fails exactly when no results row shares a key with an odds row |
| SyncStats.SyncData | scripts/sync.py:25-72 | the script writes the outer-joined, `dropna`-ed table and the per-bookmaker stats of it |
| SyncStats.BookmakerRow | scripts/sync.py:39-72 | a bookmaker's loop body gives its stats row exactly when it has a completed game |
| SyncStats.StatsRows | scripts/sync.py:58-72 | a bookmaker gives at most one stats row |
| SyncStats.StatsOfCounts | scripts/sync.py:54-70 | the bookmaker is not `NaN`; favorite wins count completed rows where the favourite won; underdog wins count every other completed row, draws included; the two add up to the completed games; completed plus unknown games are at most all games; the percentages add up to 100 and lie between 0 and 100 |
| SyncStats.PercentagesAddUp | scripts/sync.py:68-70 | two shares of the completed games are percentages that add up to 100 |
| SyncStats.StatsOfNone | scripts/sync.py:40-58 | a bookmaker gets no row exactly when it is `NaN` (whose mask selects no row) or none of its games is completed, so nothing divides by zero |
| SyncStats.PerformanceMember | scripts/sync.py:37-72 | the stats table holds exactly the rows of the bookmakers that have one |
| SyncStats.PerformanceOrder | scripts/sync.py:38 | one row per bookmaker at most, in order of first appearance in the merged table |
| DatedGames.ParseGames | sync.py:12 | the date column fails to convert exactly when the reader rejects some date; otherwise each row gets what its date reads as, in order |
| DatedGames.ReadDateCases | today_list.py:8 | a cell reads as `NaT` exactly when it is a missing value, as a time exactly when it is in the format and its time lies in the range of a nanosecond timestamp, and raises otherwise (`OutOfBoundsDatetime` for a time outside it); a missing value denotes no day |
| DatedGames.UndateDated | today_list.py:8-23 | a row whose date reads as a time holds the rendering of a valid time in the nanosecond range, and read and written back it is the row that was read |
| DatedGames.RowOfGame | today_list.py:14-23 | a written row reads back as the day and time it came from |
| DatedGames.ParseGamesUndate | today_list.py:8-23 | converting the date column and formatting it again gives the table back, missing dates as empty cells; every time read is valid and in the nanosecond range |
| DatedGames.SelectDay | today_list.py:14 | filtering the converted table on today and writing it back is filtering the text table on the days its dates denote; rows with missing dates are dropped |
| DatedGames.SortedUndate | archive/today_list.py:20-23 | sorting by time and writing the dates back gives a permutation sorted by the written dates |
| SyncResults.SyncResultsOf | sync.py:4-46 | the script writes exactly the left-joined table with its twelve columns and results, a missing game date joined as a missing `Match Date`, or stops at a date that is neither missing nor a time of the format within the nanosecond range |
| SyncResults.SyncedResultsFails | sync.py:12 | the script stops exactly when a date of the games list is neither missing nor the rendering of a time within the range of a nanosecond timestamp |
| SyncResults.DetermineWinnerCases | sync.py:21-31 | Not Completed exactly when the status is not Completed; Unknown exactly when it is and a score is missing; otherwise Home, Away or Tie by comparing the scores |
| SyncResults.SyncedResultsMember | sync.py:15-41 | every output row comes from a results row joined to a game of its key, or to nothing when no game has it, and every such pairing is written |
| SyncResults.SyncedResultsSize | sync.py:15-18 | the output keeps every results row: the matches of each, plus one row per unmatched results row |
| TodayList.GroupKeysAgree | today_list.py:17-23 | grouping on parsed times is grouping on their written texts |
| TodayList.TodayUniqueFails | today_list.py:8 | the script fails exactly when some date is neither a missing value nor the rendering of a time within the nanosecond range; rows with missing dates are dropped instead |
| TodayList.TodayRows | today_list.py:14-17 | the rows `groupby` sees: exactly the rows dated today none of whose Sport, Home Team and Away Team cells is `NaN` (`dropna`) |
| TodayList.TodayUniqueRows | today_list.py:14-20 | the output is a permutation of the first row of each group of those rows, sorted by kick-off |
| TodayList.TodayUniqueSameRows | today_list.py:17-20 | the output and the first rows of those groups hold the same rows, as many, and no two output rows share a group key |
| TodayList.TodayUniqueMember | today_list.py:14-17 | a row is in the output exactly when it is dated today, has no `NaN` key cell, and is the first such row of its group |
| TodayList.TodayUniqueKeys | today_list.py:17 | the output has exactly one row per group key among those rows |
| Seqs.PermutationNoDups | today_list.py:20 | reordering rows whose keys are distinct keeps them distinct |
| ArchiveTodayList.TodayGamesFails | archive/today_list.py:8 | the script fails exactly when some date is neither a missing value nor the rendering of a time within the nanosecond range; rows with missing dates are dropped instead |
| ArchiveTodayList.TodayGamesRows | archive/today_list.py:14-20 | the output is a permutation of the rows dated today, every bookmaker kept, sorted by kick-off |
| ProcessResults.ProcessResultsOf | scripts/results.py:128-175 | the loops save exactly the rows of all active sports, or report none or the first error |
| ProcessResults.SportMatches | scripts/results.py:142-166 | the loop over the games of a sport appends exactly the rows of the games in the odds file, in service order |
| ProcessResults.MatchResult | scripts/results.py:148-164 | the score loop updates the row in place to exactly the game's row, or stops at the first bad entry |
| ProcessResults.ScoresLast | scripts/results.py:160-164 | each score is that of the last entry naming its team, away entries that also name the home team excluded, and every other column is untouched |
| ProcessResults.ScoresFail | scripts/results.py:160-164 | the score loop fails exactly when an entry lacks the `name` key, or names a team and lacks the `score` key; a `null` name is passed over |
| ProcessResults.MatchRowFields | scripts/results.py:148-164 | a row has the odds file's sport name, today's date, the service's teams and id; it is Completed iff completed, otherwise Unknown; scores stay missing unless the game is completed with a non-empty list |
| ProcessResults.MatchRowFails | scripts/results.py:159-164 | a matched game fails the run exactly when its scores are read and one entry is bad |
| ProcessResults.SportRowsCount | scripts/results.py:142-166 | one row per service game whose teams an odds row of the sport has, however many bookmaker rows match |
| ProcessResults.SportRowsMember | scripts/results.py:142-166 | a sport's rows are exactly the rows of its games that the odds rows list |
| ProcessResults.SportResultsMember | scripts/results.py:132-166 | a sport contributes nothing when it has no key or the service returns nothing; otherwise exactly the rows of its listed games |
| ProcessResults.ProcessedFails | scripts/results.py:128-182 | the run fails exactly when a reported game that the odds file lists has a bad score entry |
| ProcessResults.ProcessedMember | scripts/results.py:128-175 | when the run does not fail, the saved rows are exactly those of the reported, listed games |
| ProcessResults.ProcessedNothing | scripts/results.py:168 | nothing is saved exactly when no reported game is listed in the odds file |
| TodaysResults.Teams | results.py:139-140 | today's teams of a sport are exactly the home and away teams of its rows |
| TodaysResults.GetTodaysGameResults | results.py:124-168 | the loop over sports writes exactly the rows of all sports of today's list, in order |
| TodaysResults.WriteSportOf | results.py:125-168 | one sport writes nothing when it has no key or the request fails, and otherwise the rows of its followed games up to the first that breaks |
| TodaysResults.WriteSport | results.py:142-164 | the loop over a sport's games appends exactly the rows of its followed games, stopping at the first bad one |
| TodaysResults.GameResult | results.py:144-163 | the score loop updates the two scores to exactly the game's row, or stops at an entry without `name` |
| TodaysResults.ScoresLast | results.py:145-152 | each score is the `score` of the last entry naming its team, or "" when it has none or lacks `score` |
| TodaysResults.ScoresFail | results.py:148-152 | only an entry without the `name` key stops the score loop; a `null` name is passed over |
| TodaysResults.GameRowFields | results.py:154-162 | the row has the service's sport title, time, teams and id; the status is Completed, else the service's status (empty when `null`), else Scheduled; a missing or empty score list leaves both scores "" |
| TodaysResults.WrittenMember | results.py:142-164 | a row is written for a sport exactly when it is the row of a followed game and no earlier followed game broke the sport |
| TodaysResults.WrittenStops | results.py:166-168 | after a game that breaks, the sport writes nothing more: its rows are those of the games before it |
| TodaysResults.WrittenCount | results.py:142-164 | when no game breaks, every followed game writes exactly one row |
| TodaysResults.SportsWrittenMember | results.py:124-168 | the rows of a run of sports are the rows of its sports |
| TodaysResults.AllWrittenMember | results.py:124-168 | every written row comes from a sport of today's list that has a key and a response, and is written there |

## Left out

- Network I/O is not modelled. This covers `download_odds_html`,
  `fetch_game_results` and `requests.get`. The page is an input tree, and
  the service's answer for a sport key is the `fetch` parameter (`None` for
  a failed or empty request).
- BeautifulSoup and the CSS-class selection are not modelled. The page is
  an already-parsed tree of games, sections and items. A missing element
  (`find` returning `None`) is not modelled.
- CSV reading and writing, `os.path.exists`, `open`, dotenv and API-key
  loading, and `print` are not modelled. The scripts take and return tables
  as sequences of records. The saver's outer loop over `sports_url.csv`
  and its `Compiled_At` column are left out with the file I/O.
- `datetime.now()` and the hard-coded dates are parameters (`today`).
- The UTC to America/New_York conversion is a parameter `toEastern`.
- `pd.to_datetime` without a format, in the saver, is a parameter. It may
  fail, and it reads the missing-value texts as `NaT`.
- A missing `Match Date` is a cell that `read_csv` makes `NaN` by default, or
  one of the texts pandas reads as `NaT`. Other `na_values` settings are not
  modelled.
- `strptime` is modelled as a strict parser of the canonical text. Python
  also accepts one-digit fields, other spacing and any letter case; that
  leniency is not modelled.
- Rounding is not modelled: `round(..., 3)` of prices and `round(..., 2)`
  of percentages. Prices and percentages are exact rationals.
- `Text.Lower` lowers ASCII letters only; Unicode case mapping is not
  modelled.
- `Text.ParseUnpadded`: `int()` accepts ASCII digits only; Unicode digits
  are not modelled.
- Records.ReadScore: a score cell is read as an optionally signed run of
  digits between ASCII whitespace; decimal, exponent and infinity texts,
  which `to_numeric` or `float` would accept, are not modelled.
- TableCleanup.CleanUp: the `Price` column counts as numbers when every
  cell is missing or an integer. A column that `read_csv` types as floats
  because of decimal or exponent texts is not modelled: there the script
  raises at `.replace`, and the model converts the integer cells.
- The two sync scripts without `to_numeric` on non-numeric score text are
  not modelled. The model reads such a cell as a missing score.
  - In `scripts/sync.py` (lines 48-50) one text cell makes the whole column
    text. The scores are then compared as strings. A comparison of text
    with `NaN` raises `TypeError`, which the `except` at lines 87-89 turns
    into `False`.
  - In `sync.py` the `float()` at line 26 raises `ValueError` and stops the
    script.
- Seqs.SortBy: `sort_values` uses an unstable quicksort, while the model
  sorts stably. Only "sorted and a permutation" is stated, which both
  satisfy; the order of rows with equal kick-off times is not modelled.
- Merge.OuterDropMember: a pandas outer merge sorts its rows by key. The
  model keeps the left join's order followed by the unmatched right rows.
  Only membership is stated, not the row order.
- TodayUniqueRows: `groupby(...).first()` takes the first non-null value of
  each column separately. The model takes each group's first row whole, so
  a `NaN` in a column outside the key (a price, the bookmaker) of that row
  is not filled in from a later row of the group.
- `pd.to_datetime` is modelled with nanosecond timestamps, the only
  resolution before pandas 3.0. From 3.0 a time outside 1677-2262 may be
  read at a coarser resolution instead of raising; that is not modelled.
- `merge` matches a `NaN` key cell with every other `NaN`. The model joins
  key cells as text, so two rows whose missing key cells are spelled
  differently (the empty cell and "NA") join in `sync.py` and
  `scripts/sync.py` but not in the model.
- YesterdaysSync.NormalizeOddsColumn, YesterdaysSync.NormalizeResultColumn:
  `astype(str)` turns a `NaN` key cell into the text "nan". The model
  normalises the cell's own text, so an empty key cell stays empty and does
  not join a cell that read as "nan".
- The sync scripts' type coercions are modelled only as far as the
  compared values:
  - `astype(str)` on text columns;
  - `pd.to_datetime` on `sync.py`'s `Event Time` column, whose value is
    not used;
  - `float()` on prices already numeric.
- Assigning a scalar `Sport` to an empty frame is left out. This happens at
  archive/table_cleanup.py:10, so its output has no `Sport` column in the
  model. At archive/compiler.py:67 the frame is replaced anyway.
- The full sport-key maps are not transcribed. `keys` is an arbitrary map
  from league name to service key. An empty key counts as "no key", as
  `if sport_url` does at scripts/results.py:135.
- Every service game in the model carries `id`, `sport_title`,
  `commence_time`, `home_team` and `away_team`. A missing one would raise a
  `KeyError` in the source; that is not modelled.
- ProcessResults.ProcessedFails: a `KeyError` in the score loop stops the
  whole run, which returns `False` from the outer `except`. The model
  returns `Failed`, and the diagnostics printed there are left out.
- TodaysResults.GetTodaysGameResults: the outer `except`, which returns
  `None`, is only reachable through I/O that is not modelled.
- In results.py each row goes out through `writer.writerow` as soon as it
  is built. The model appends it to the sequence of written rows. Rows
  written before an error stay written, as in the file.
- SaveOdds.AppendMatch, Compiler.AppendMatch, TableCleanup.AppendMatch,
  TodaysResults.WriteSportOf and ProcessResults.SportMatches: these loop
  bodies are split into helper methods. Each states the loop's contract,
  so the loops read as they do in the source, only in smaller pieces.

Choices the code makes, which the model follows:

- There are no draw legs. A quote needs exactly two rows for its match and
  bookmaker (scripts/save_odds.py:81, archive/compiler.py:96,
  archive/table_cleanup.py:44). A group of three rows is dropped silently.
- Equal prices are not an unresolved favourite.
  `scripts/yesterdays_sync.py` calls the winner the favourite when the
  prices are equal (scripts/yesterdays_sync.py:54-57). `scripts/sync.py`
  makes the away side the favourite (scripts/sync.py:42-44).
- `scripts/sync.py` has no separate draw count. It counts a draw, or a
  missing score, as an underdog win (scripts/sync.py:60-63).
- Every join is on (Sport, Home Team, Away Team) only, never on the date
  (sync.py:15-18, scripts/sync.py:25-28, scripts/yesterdays_sync.py:65-68).
