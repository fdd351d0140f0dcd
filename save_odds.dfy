/** The daily odds saver (`scripts/save_odds.py`): the scraped table of one
    sport is cut down to today's games and cleaned into one two-way quote per
    match and bookmaker, with the sport in front. The scraping itself is
    `Extraction.ParseHtmlToTable` in its `IsoEastern` mode. */
module SaveOdds {
  import opened Wrappers
  import opened Seqs
  import opened Timestamps
  import opened AmericanOdds
  import opened Extraction
  import opened Cleaning

  /** `clean_table(df, sport)`: for each match of the table and each of its
      bookmakers, a two-row group gives one quote, its prices read with
      `american_to_decimal` from the first row naming each team. */
  method CleanTable(rows: seq<RawRow>, sport: string) returns (r: Result<seq<OddsRow>, CleanError>)
    ensures r == TaggedTable(AmericanToDecimal, rows, sport)
  {
    r := CleanTableWith(AmericanToDecimal, rows, sport);
  }

  /** The loops of `clean_table`, with the nested `american_to_decimal`
      passed in as `convert`. */
  method CleanTableWith(convert: Converter, rows: seq<RawRow>, sport: string) returns (r: Result<seq<OddsRow>, CleanError>)
    ensures r == TaggedTable(convert, rows, sport)
  {
    ghost var f := MatchQuotesOf(convert, rows);
    ghost var quotes: seq<Quote> := [];
    var matches := UniqueMatches(rows);
    var cleanedData: seq<OddsRow> := [];
    for mi := 0 to |matches|
      invariant Concat(f, matches[..mi]) == Ok(quotes)
      invariant cleanedData == WithSport(sport, quotes)
    {
      ConcatStep(f, matches, mi, quotes);
      var more := AppendMatch(convert, cleanedData, rows, matches[mi], sport);
      if more.Err? {
        ConcatErrPrefix(f, matches, mi + 1);
        return Err(more.error);
      }
      WithSportAppend(sport, quotes, f(matches[mi]).value);
      quotes := quotes + f(matches[mi]).value;
      cleanedData := more.value;
    }
    TakeAll(matches);
    return Ok(cleanedData);
  }

  /** `done` followed by the quotes of a step, tagged with the sport, or the
      step's error. */
  function AppendTagged(done: seq<OddsRow>, sport: string, step: Result<seq<Quote>, CleanError>): Result<seq<OddsRow>, CleanError> {
    match step
    case Err(e) => Err(e)
    case Ok(qs) => Ok(done + WithSport(sport, qs))
  }

  /** The inner loop of `clean_table`: the bookmakers of one match, in order
      of first appearance, each adding its quote (if any) to `cleanedData`. */
  method AppendMatch(convert: Converter, cleanedData: seq<OddsRow>, rows: seq<RawRow>, match_: MatchKey, sport: string)
    returns (r: Result<seq<OddsRow>, CleanError>)
    ensures r == AppendTagged(cleanedData, sport, MatchQuotes(convert, rows, match_))
  {
    var matchData := MatchData(rows, match_);
    var bookmakers := UniqueBookmakers(matchData);
    r := AppendBookmakers(convert, cleanedData, matchData, match_, bookmakers, sport);
  }

  /** The loop over the bookmakers of the match. */
  method AppendBookmakers(convert: Converter, cleanedData: seq<OddsRow>, matchData: seq<RawRow>, match_: MatchKey,
                          bookmakers: seq<string>, sport: string)
    returns (r: Result<seq<OddsRow>, CleanError>)
    ensures r == AppendTagged(cleanedData, sport, Concat(BookmakerQuoteOf(convert, match_, matchData), bookmakers))
  {
    ghost var g := BookmakerQuoteOf(convert, match_, matchData);
    ghost var matchQuotes: seq<Quote> := [];
    var out := cleanedData;
    for bi := 0 to |bookmakers|
      invariant Concat(g, bookmakers[..bi]) == Ok(matchQuotes)
      invariant out == cleanedData + WithSport(sport, matchQuotes)
    {
      ConcatStep(g, bookmakers, bi, matchQuotes);
      var step := AddBookmaker(convert, out, matchData, match_, bookmakers[bi], sport);
      if step.Err? {
        ConcatErrPrefix(g, bookmakers, bi + 1);
        return Err(step.error);
      }
      ghost var qs := g(bookmakers[bi]).value;
      TaggedAppend(cleanedData, sport, matchQuotes, qs);
      out := step.value;
      matchQuotes := matchQuotes + qs;
    }
    TakeAll(bookmakers);
    return Ok(out);
  }

  /** One turn of the inner loop: the bookmaker's rows for the match, added
      to `out`. */
  method AddBookmaker(convert: Converter, out: seq<OddsRow>, matchData: seq<RawRow>, match_: MatchKey,
                      bookmaker: string, sport: string)
    returns (r: Result<seq<OddsRow>, CleanError>)
    ensures r == AppendTagged(out, sport, BookmakerQuoteOf(convert, match_, matchData)(bookmaker))
  {
    var matchOdds := MatchOdds(matchData, bookmaker);
    var step := BookmakerRows(convert, matchOdds, match_, bookmaker, sport);
    if step.Err? {
      return Err(step.error);
    }
    assert step.value == WithSport(sport, BookmakerQuote(convert, match_, bookmaker, matchOdds).value);
    return Ok(out + step.value);
  }

  /** The body of the inner loop: a bookmaker with exactly two rows for the
      match gives one row, the home price read first. */
  method BookmakerRows(convert: Converter, matchOdds: seq<RawRow>, match_: MatchKey, bookmaker: string, sport: string)
    returns (r: Result<seq<OddsRow>, CleanError>)
    ensures r == AppendTagged([], sport, BookmakerQuote(convert, match_, bookmaker, matchOdds))
  {
    if |matchOdds| != 2 {
      assert [] + WithSport(sport, []) == [];
      return Ok([]);
    }
    var homeTeamOdds := TeamOdds(convert, matchOdds, match_.home);
    if homeTeamOdds.Err? {
      return Err(homeTeamOdds.error);
    }
    var awayTeamOdds := TeamOdds(convert, matchOdds, match_.away);
    if awayTeamOdds.Err? {
      return Err(awayTeamOdds.error);
    }
    var q := Quote(match_.date, match_.home, match_.away, homeTeamOdds.value, awayTeamOdds.value, bookmaker);
    assert [] + WithSport(sport, [q]) == [Tag(sport, q)];
    return Ok([Tag(sport, q)]);
  }

  // ---------------------------------------------------------------------
  // Today's games only

  /** `pd.to_datetime` applied to one date text: `NaT` for a missing value,
      a time, or `None` where pandas cannot read the text, which raises for
      the whole column. Left as a parameter: the format inference of pandas
      is not modelled. */
  type DateReader = string -> Option<Stamp>

  /** What every such reader does: pandas timestamps are calendar instants,
      and the missing-value texts read as `NaT`. */
  ghost predicate PandasReader(toDatetime: DateReader) {
    && (forall s :: toDatetime(s).Some? && toDatetime(s).value.At? ==> Valid(toDatetime(s).value.time))
    && (forall s :: s in NaTTexts ==> toDatetime(s) == Some(NaT))
  }

  /** The row `x` is what the filter makes of `row`: its date is read as a
      time on `today`, and the date column now holds the timestamp, which
      is written out as "%Y-%m-%d %H:%M:%S". */
  predicate KeptAs(toDatetime: DateReader, today: Date, row: RawRow, x: RawRow)
    requires PandasReader(toDatetime)
  {
    && toDatetime(row.date).Some? && toDatetime(row.date).value.At?
    && DateOf(toDatetime(row.date).value.time) == today
    && x == row.(date := FormatIso(toDatetime(row.date).value.time))
  }

  /** The `Match Date` column converted to timestamps, then the rows of
      games played on `today` kept, in table order; `NaT` equals no day, so
      its row is dropped. */
  function TodayRows(toDatetime: DateReader, today: Date, rows: seq<RawRow>): (r: Option<seq<RawRow>>)
    requires PandasReader(toDatetime)
    ensures r.Some? ==> |r.value| <= |rows|
  {
    if rows == [] then Some([])
    else
      var kept :- TodayRows(toDatetime, today, rows[..|rows| - 1]);
      var last := rows[|rows| - 1];
      var stamp :- toDatetime(last.date);
      match stamp
      case At(t) => if DateOf(t) == today then Some(kept + [last.(date := FormatIso(t))]) else Some(kept)
      case NaT => Some(kept)
  }

  /** The conversion fails exactly when some date cannot be read. */
  lemma {:induction false} TodayRowsFails(toDatetime: DateReader, today: Date, rows: seq<RawRow>)
    requires PandasReader(toDatetime)
    ensures TodayRows(toDatetime, today, rows).None? <==>
      exists i :: 0 <= i < |rows| && toDatetime(rows[i].date).None?
  {
    if rows != [] {
      var p := rows[..|rows| - 1];
      TodayRowsFails(toDatetime, today, p);
      assert forall i :: 0 <= i < |p| ==> p[i] == rows[i];
    }
  }

  /** A row survives exactly when it is today's: the filter keeps every row
      of today's games and nothing else. */
  lemma {:induction false} TodayRowsMember(toDatetime: DateReader, today: Date, rows: seq<RawRow>, x: RawRow)
    requires PandasReader(toDatetime)
    requires TodayRows(toDatetime, today, rows).Some?
    ensures x in TodayRows(toDatetime, today, rows).value <==>
      exists i :: 0 <= i < |rows| && KeptAs(toDatetime, today, rows[i], x)
  {
    if rows != [] {
      var p := rows[..|rows| - 1];
      TodayRowsMember(toDatetime, today, p, x);
      assert forall i :: 0 <= i < |p| ==> p[i] == rows[i];
      if KeptAs(toDatetime, today, rows[|rows| - 1], x) {
        assert x in TodayRows(toDatetime, today, rows).value;
      }
    }
  }

  /** Every surviving row is dated today. */
  lemma TodayRowsDated(toDatetime: DateReader, today: Date, rows: seq<RawRow>, x: RawRow)
    requires PandasReader(toDatetime)
    requires TodayRows(toDatetime, today, rows).Some? && x in TodayRows(toDatetime, today, rows).value
    ensures exists t :: Valid(t) && DateOf(t) == today && x.date == FormatIso(t)
  {
    TodayRowsMember(toDatetime, today, rows, x);
    var i :| 0 <= i < |rows| && KeptAs(toDatetime, today, rows[i], x);
    var t := toDatetime(rows[i].date).value.time;
    assert Valid(t) && DateOf(t) == today && x.date == FormatIso(t);
  }

  /** A missing date neither stops the conversion nor survives the filter:
      a table whose dates are all missing gives no rows. */
  lemma {:induction false} TodayRowsAllMissing(toDatetime: DateReader, today: Date, rows: seq<RawRow>)
    requires PandasReader(toDatetime)
    requires forall i :: 0 <= i < |rows| ==> rows[i].date in NaTTexts
    ensures TodayRows(toDatetime, today, rows) == Some([])
  {
    if rows != [] {
      var p := rows[..|rows| - 1];
      assert forall i :: 0 <= i < |p| ==> p[i] == rows[i];
      TodayRowsAllMissing(toDatetime, today, p);
      assert toDatetime(rows[|rows| - 1].date) == Some(NaT);
    }
  }
}
