/** `today_list.py`: today's games from the compiled odds table, one row per
    game (the first bookmaker's row of each group), sorted by kick-off. */
module TodayList {
  import opened Wrappers
  import opened Seqs
  import opened Timestamps
  import opened Records
  import opened Cleaning
  import opened DatedGames

  /** The `groupby` key: Sport, Match Date, Home Team, Away Team. */
  datatype GroupKey = GroupKey(sport: string, matchDate: Stamp, home: string, away: string)

  function GroupOf(d: DatedGame): GroupKey {
    GroupKey(d.sport, d.matchDate, d.home, d.away)
  }

  /** The same key on the text table. */
  datatype RowGroupKey = RowGroupKey(sport: string, matchDate: string, home: string, away: string)

  function RowGroup(r: OddsRow): RowGroupKey {
    RowGroupKey(r.sport, r.date, r.home, r.away)
  }

  /** A game `groupby` keeps: none of its Sport, Home Team and Away Team
      cells is `NaN` (`dropna=True`). Its date needs no test, since the day
      filter has already dropped every `NaT`. */
  predicate Grouped(d: DatedGame) {
    !NullCell(d.sport) && !NullCell(d.home) && !NullCell(d.away)
  }

  /** The same test on a row of the text table. */
  predicate RowGrouped(r: OddsRow) {
    !NullCell(r.sport) && !NullCell(r.home) && !NullCell(r.away)
  }

  /** The script on the compiled odds table `df`: lines 8-23, or the date
      text `to_datetime` cannot read. `today` is a parameter. */
  function TodayUnique(df: seq<OddsRow>, today: Date): Result<seq<OddsRow>, string> {
    var dated :- ParseGames(ReadDate, df);
    var todayGames := Select(dated, GameDay, Some(today));
    var todayUnique := DistinctBy(Select(todayGames, Grouped, true), GroupOf);
    Ok(Map(SortBy(todayUnique, GameOrdinal), Undate))
  }

  /** The rows of the text table dated today whose group key has no `NaN`
      cell, in table order. */
  function TodayRows(df: seq<OddsRow>, today: Date): (r: seq<OddsRow>)
    ensures forall x :: x in r <==> x in df && RowDay(x) == Some(today) && RowGrouped(x)
  {
    Select(Select(df, RowDay, Some(today)), RowGrouped, true)
  }

  /** Two valid times are equal exactly when their renderings are. */
  lemma GroupKeysAgree(x: DatedGame, y: DatedGame)
    requires x.matchDate.At? && Valid(x.matchDate.time) && y.matchDate.At? && Valid(y.matchDate.time)
    ensures GroupOf(x) == GroupOf(y) <==> RowGroup(Undate(x)) == RowGroup(Undate(y))
  {
    ParseFormatUs(x.matchDate.time);
    ParseFormatUs(y.matchDate.time);
  }

  /** The script fails exactly when a date of the table is neither missing
      nor the rendering of a time a nanosecond timestamp holds; a missing date is read as `NaT` and its row is
      dropped by the filter (`TodayUniqueMember`). */
  lemma TodayUniqueFails(df: seq<OddsRow>, today: Date)
    ensures TodayUnique(df, today).Err? <==>
      exists i :: 0 <= i < |df| && Unreadable(df[i].date)
  {
    forall i | 0 <= i < |df| {
      ReadDateCases(df[i].date);
    }
  }

  /** The output holds, each once, the first row of every group of today's
      rows, with its date text unchanged, sorted by kick-off time. */
  lemma TodayUniqueRows(df: seq<OddsRow>, today: Date)
    requires TodayUnique(df, today).Ok?
    ensures multiset(TodayUnique(df, today).value) == multiset(DistinctBy(TodayRows(df, today), RowGroup))
    ensures SortedBy(TodayUnique(df, today).value, RowOrdinal)
  {
    var dated := ParseGames(ReadDate, df).value;
    var todayGames := Select(dated, GameDay, Some(today));
    var grouped := Select(todayGames, Grouped, true);
    var todayUnique := DistinctBy(grouped, GroupOf);
    SelectDay(df, today);
    SelectMap(todayGames, Undate, Grouped, true, RowGrouped, true);
    forall x, y | x in grouped && y in grouped
      ensures GroupOf(x) == GroupOf(y) <==> RowGroup(Undate(x)) == RowGroup(Undate(y))
    {
      GroupKeysAgree(x, y);
    }
    DistinctByMap(grouped, Undate, GroupOf, RowGroup);
    forall d | d in todayUnique ensures d.matchDate.At? && Valid(d.matchDate.time) {
      DistinctByMember(grouped, GroupOf, d);
    }
    SortedUndate(todayUnique);
  }

  /** The output and the first rows of today's groups hold the same rows,
      as many, and no two output rows share a group key. */
  lemma TodayUniqueSameRows(df: seq<OddsRow>, today: Date)
    requires TodayUnique(df, today).Ok?
    ensures var out := TodayUnique(df, today).value;
      var d := DistinctBy(TodayRows(df, today), RowGroup);
      |out| == |d| && forall y :: y in out <==> y in d
    ensures NoDups(Map(TodayUnique(df, today).value, RowGroup))
  {
    var out := TodayUnique(df, today).value;
    var d := DistinctBy(TodayRows(df, today), RowGroup);
    TodayUniqueRows(df, today);
    DistinctByUnique(TodayRows(df, today), RowGroup);
    PermutationNoDups(d, out, RowGroup);
    assert |out| == |multiset(out)| == |multiset(d)| == |d|;
    forall y ensures y in out <==> y in d {
      assert y in out <==> y in multiset(out);
      assert y in d <==> y in multiset(d);
    }
  }

  /** Hence a row is in the output exactly when it is dated today, none of
      its Sport, Home Team and Away Team is `NaN`, and no earlier such row
      has its (Sport, Match Date, Home Team, Away Team). */
  lemma TodayUniqueMember(df: seq<OddsRow>, today: Date, x: OddsRow)
    requires TodayUnique(df, today).Ok?
    ensures x in TodayUnique(df, today).value <==> exists i :: FirstOfKey(TodayRows(df, today), RowGroup, i, x)
  {
    TodayUniqueSameRows(df, today);
    DistinctByMember(TodayRows(df, today), RowGroup, x);
  }

  /** The output has one row per key: every key of today's rows, and no
      key twice. */
  lemma TodayUniqueKeys(df: seq<OddsRow>, today: Date, k: RowGroupKey)
    requires TodayUnique(df, today).Ok?
    ensures k in Map(TodayUnique(df, today).value, RowGroup) <==> k in Map(TodayRows(df, today), RowGroup)
    ensures |TodayUnique(df, today).value| == |DistinctBy(TodayRows(df, today), RowGroup)|
    ensures NoDups(Map(DistinctBy(TodayRows(df, today), RowGroup), RowGroup))
  {
    var out := TodayUnique(df, today).value;
    var d := DistinctBy(TodayRows(df, today), RowGroup);
    TodayUniqueSameRows(df, today);
    MapMember(out, RowGroup, k);
    MapMember(d, RowGroup, k);
    DistinctByKeys(TodayRows(df, today), RowGroup, k);
    DistinctByUnique(TodayRows(df, today), RowGroup);
  }
}
