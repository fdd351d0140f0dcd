/** `archive/today_list.py`: today's rows of the compiled odds table, every
    bookmaker kept, sorted by kick-off. */
module ArchiveTodayList {
  import opened Wrappers
  import opened Seqs
  import opened Timestamps
  import opened Cleaning
  import opened DatedGames

  /** The script on the compiled odds table `df`: lines 8-23, or the date
      text `to_datetime` cannot read. `today` is a parameter. */
  function TodayGames(df: seq<OddsRow>, today: Date): Result<seq<OddsRow>, string> {
    var dated :- ParseGames(ReadDate, df);
    var todayGames := Select(dated, GameDay, Some(today));
    Ok(Map(SortBy(todayGames, GameOrdinal), Undate))
  }

  /** The script fails exactly when a date of the table is neither missing
      nor the rendering of a time a nanosecond timestamp holds; a row with a missing date is dropped by the filter
      (`TodayGamesRows`). */
  lemma TodayGamesFails(df: seq<OddsRow>, today: Date)
    ensures TodayGames(df, today).Err? <==>
      exists i :: 0 <= i < |df| && Unreadable(df[i].date)
  {
    forall i | 0 <= i < |df| {
      ReadDateCases(df[i].date);
    }
  }

  /** The output is a permutation of the rows dated today, date texts
      unchanged, sorted by kick-off time. */
  lemma TodayGamesRows(df: seq<OddsRow>, today: Date)
    requires TodayGames(df, today).Ok?
    ensures multiset(TodayGames(df, today).value) == multiset(Select(df, RowDay, Some(today)))
    ensures SortedBy(TodayGames(df, today).value, RowOrdinal)
  {
    SelectDay(df, today);
    SortedUndate(Select(ParseGames(ReadDate, df).value, GameDay, Some(today)));
  }
}
