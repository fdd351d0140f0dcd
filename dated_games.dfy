/** The compiled odds table with its `Match Date` column read as timestamps
    (`pd.to_datetime(..., format='%b %d, %Y, %I:%M %p')`), as the daily-list
    scripts and `sync.py` read it, and written back with the same format. */
module DatedGames {
  import opened Wrappers
  import opened Seqs
  import opened Timestamps
  import opened Records
  import opened Cleaning

  /** A `Match Date` cell that reaches `to_datetime` as a missing value, or
      as a text it reads as `NaT`. */
  predicate MissingCell(s: string) {
    NullCell(s) || s in NaTTexts
  }

  /** `pd.to_datetime` with the format, on one cell: `NaT` for a missing
      value, the time a text in the format denotes when a nanosecond
      timestamp can hold it, or `None` where pandas raises for the whole
      column. */
  function ReadDate(s: string): Option<Stamp> {
    if MissingCell(s) then Some(NaT)
    else match ParseUs(s)
      case Some(t) => if InNsRange(t) then Some(At(t)) else None
      case None => None
  }

  /** A cell `to_datetime` raises on: not a missing value, and not the
      rendering of a time within the range of a nanosecond timestamp. */
  predicate Unreadable(s: string) {
    !MissingCell(s) && (ParseUs(s).None? || !InNsRange(ParseUs(s).value))
  }

  /** A row of the odds table once its `Match Date` is a timestamp. */
  datatype DatedGame = DatedGame(sport: string, matchDate: Stamp, home: string, away: string,
                                 homeOdds: real, awayOdds: real, bookmaker: string)

  function Dated(g: OddsRow, t: Stamp): DatedGame {
    DatedGame(g.sport, t, g.home, g.away, g.homeOdds, g.awayOdds, g.bookmaker)
  }

  function DatedKey(g: DatedGame): GameKey {
    GameKey(g.sport, g.home, g.away)
  }

  /** `pd.to_datetime` of the `Match Date` column, each text read by `read`;
      the first text it cannot read raises, which is the error here. */
  function ParseGames(read: string -> Option<Stamp>, games: seq<OddsRow>): (r: Result<seq<DatedGame>, string>)
    ensures r.Err? <==> exists i :: 0 <= i < |games| && read(games[i].date).None?
    ensures r.Ok? ==> |r.value| == |games| && forall i :: 0 <= i < |games| ==>
      read(games[i].date).Some? && r.value[i] == Dated(games[i], read(games[i].date).value)
  {
    if games == [] then Ok([])
    else
      var p := games[..|games| - 1];
      var last := games[|games| - 1];
      assert forall i :: 0 <= i < |p| ==> p[i] == games[i];
      match ParseGames(read, p)
      case Err(e) => Err(e)
      case Ok(dated) =>
        match read(last.date)
        case None => Err(last.date)
        case Some(t) => Ok(dated + [Dated(last, t)])
  }

  /** `.dt.strftime('%b %d, %Y, %I:%M %p')` of the date column as the CSV
      writer puts it: `NaT` becomes a missing value, written as the empty
      cell. Every time read is valid, so the empty text is never produced
      for a time. */
  function Undate(d: DatedGame): OddsRow {
    OddsRow(d.sport, if d.matchDate.At? && Valid(d.matchDate.time) then FormatUs(d.matchDate.time) else "",
            d.home, d.away, d.homeOdds, d.awayOdds, d.bookmaker)
  }

  /** `.dt.date`: the day of a time; `NaT` has none, so it equals no day. */
  function GameDay(d: DatedGame): Option<Date> {
    match d.matchDate
    case At(t) => Some(DateOf(t))
    case NaT => None
  }

  /** The sort key of a dated row. Only rows of one day are sorted, and the
      day filter has already dropped `NaT`, whose key is never used. */
  function GameOrdinal(d: DatedGame): int {
    match d.matchDate
    case At(t) => Ordinal(t)
    case NaT => 0
  }

  /** The day of a row of the text table, when its date denotes a time. */
  function RowDay(r: OddsRow): Option<Date> {
    match ParseUs(r.date)
    case Some(t) => Some(DateOf(t))
    case None => None
  }

  /** The sort key of a row of the text table: the time its date denotes. */
  function RowOrdinal(r: OddsRow): int {
    match ParseUs(r.date)
    case Some(t) => Ordinal(t)
    case None => 0
  }

  /** A row whose missing date is written back as the empty cell. */
  function Blank(g: OddsRow): OddsRow {
    if MissingCell(g.date) then g.(date := "") else g
  }

  /** The three outcomes of reading one cell: `NaT` exactly for a missing
      value, a time exactly for a text in the format whose time lies in the
      nanosecond range, and an error for anything else. A missing value
      denotes no day. */
  lemma ReadDateCases(s: string)
    ensures ReadDate(s) == Some(NaT) <==> MissingCell(s)
    ensures ReadDate(s).None? <==> !MissingCell(s) && (ParseUs(s).None? || !InNsRange(ParseUs(s).value))
    ensures forall t :: ReadDate(s) == Some(At(t)) <==> ParseUs(s) == Some(t) && InNsRange(t)
    ensures MissingCell(s) ==> ParseUs(s).None?
  {
    if MissingCell(s) {
      assert |s| < 22;
    }
  }

  /** A row whose date is read as a time holds the rendering of a valid
      time in the nanosecond range, and written back it is the row that was
      read. */
  lemma UndateDated(g: OddsRow)
    requires ReadDate(g.date).Some? && ReadDate(g.date).value.At?
    ensures ParseUs(g.date) == Some(ReadDate(g.date).value.time)
    ensures Valid(ReadDate(g.date).value.time) && InNsRange(ReadDate(g.date).value.time)
    ensures Undate(Dated(g, ReadDate(g.date).value)) == g
  {
    ReadDateCases(g.date);
    FormatParseUs(g.date);
  }

  /** A written row reads back as the day and time it came from. */
  lemma RowOfGame(d: DatedGame)
    requires d.matchDate.At? && Valid(d.matchDate.time)
    ensures RowDay(Undate(d)) == GameDay(d)
    ensures RowOrdinal(Undate(d)) == GameOrdinal(d)
  {
    ParseFormatUs(d.matchDate.time);
  }

  /** Reading the dates and writing them back gives the table back, but for
      the missing dates, which come back as empty cells; every time read is
      valid and in the nanosecond range. */
  lemma ParseGamesUndate(games: seq<OddsRow>)
    requires ParseGames(ReadDate, games).Ok?
    ensures forall d :: d in ParseGames(ReadDate, games).value && d.matchDate.At? ==>
      Valid(d.matchDate.time) && InNsRange(d.matchDate.time)
    ensures Map(ParseGames(ReadDate, games).value, Undate) == Map(games, Blank)
  {
    var dated := ParseGames(ReadDate, games).value;
    forall i | 0 <= i < |games|
      ensures dated[i].matchDate.At? ==> Valid(dated[i].matchDate.time) && InNsRange(dated[i].matchDate.time)
      ensures Undate(dated[i]) == Blank(games[i])
    {
      ReadDateCases(games[i].date);
      if !MissingCell(games[i].date) {
        UndateDated(games[i]);
      }
    }
  }

  /** Filtering the dated table on a day and writing it back is filtering
      the text table on the day its dates denote: a row with a missing date
      is dropped, not an error. */
  lemma SelectDay(games: seq<OddsRow>, today: Date)
    requires ParseGames(ReadDate, games).Ok?
    ensures var dated := ParseGames(ReadDate, games).value;
      Map(Select(dated, GameDay, Some(today)), Undate) == Select(games, RowDay, Some(today))
    ensures forall d :: d in Select(ParseGames(ReadDate, games).value, GameDay, Some(today)) ==>
      d.matchDate.At? && Valid(d.matchDate.time)
  {
    var dated := ParseGames(ReadDate, games).value;
    var kept := Select(games, RowDay, Some(today));
    ParseGamesUndate(games);
    forall d | d in dated ensures GameDay(d) == Some(today) <==> RowDay(Undate(d)) == Some(today) {
      if d.matchDate.At? {
        RowOfGame(d);
      } else {
        ReadDateCases("");
      }
    }
    SelectMap(dated, Undate, GameDay, Some(today), RowDay, Some(today));
    forall g | g in games ensures RowDay(g) == Some(today) <==> RowDay(Blank(g)) == Some(today) {
      ReadDateCases(g.date);
      ReadDateCases("");
    }
    SelectMap(games, Blank, RowDay, Some(today), RowDay, Some(today));
    forall i | 0 <= i < |kept| ensures Blank(kept[i]) == kept[i] {
      assert kept[i] in kept;
      ReadDateCases(kept[i].date);
    }
    assert Map(kept, Blank) == kept;
  }

  /** `sort_values('Match Date')` followed by writing the dates back: the
      rows written back, each as often, in ascending order of the times
      their dates denote. */
  lemma SortedUndate(s: seq<DatedGame>)
    requires forall d :: d in s ==> d.matchDate.At? && Valid(d.matchDate.time)
    ensures multiset(Map(SortBy(s, GameOrdinal), Undate)) == multiset(Map(s, Undate))
    ensures SortedBy(Map(SortBy(s, GameOrdinal), Undate), RowOrdinal)
  {
    var sorted := SortBy(s, GameOrdinal);
    MapSortBy(s, GameOrdinal, Undate);
    forall d | d in sorted ensures RowOrdinal(Undate(d)) == GameOrdinal(d) {
      assert d in multiset(sorted);
      RowOfGame(d);
    }
    SortedByMap(sorted, Undate, GameOrdinal, RowOrdinal);
  }
}
