/** The odds compiler (`archive/compiler.py`). Its `parse_html_to_table` is
    `Extraction.ParseHtmlToTable` in the `UsEastern` mode. Its `clean_table`
    computes the same quotes as the daily saver's but keeps them in seven
    parallel lists, one per output column, which become the frame at the
    end. */
module Compiler {
  import opened Wrappers
  import opened Seqs
  import opened AmericanOdds
  import opened Extraction
  import opened Cleaning

  /** The seven lists `clean_table` appends to, one per output column. */
  datatype Columns = Columns(sports: seq<string>, matchDates: seq<string>, homeTeams: seq<string>,
                             awayTeams: seq<string>, homeOdds: seq<real>, awayOdds: seq<real>,
                             bookmakers: seq<string>)

  /** All seven lists have the same length, which `pd.DataFrame` demands. */
  predicate Lockstep(c: Columns) {
    && |c.matchDates| == |c.sports|
    && |c.homeTeams| == |c.sports|
    && |c.awayTeams| == |c.sports|
    && |c.homeOdds| == |c.sports|
    && |c.awayOdds| == |c.sports|
    && |c.bookmakers| == |c.sports|
  }

  /** One more entry on each list. */
  function Push(c: Columns, x: OddsRow): Columns {
    Columns(c.sports + [x.sport], c.matchDates + [x.date], c.homeTeams + [x.home],
            c.awayTeams + [x.away], c.homeOdds + [x.homeOdds], c.awayOdds + [x.awayOdds],
            c.bookmakers + [x.bookmaker])
  }

  /** The columns of a table of rows, appended to row by row. */
  function ColumnsOf(t: seq<OddsRow>): (c: Columns)
    ensures Lockstep(c) && |c.sports| == |t|
  {
    if t == [] then Columns([], [], [], [], [], [], [])
    else Push(ColumnsOf(t[..|t| - 1]), t[|t| - 1])
  }

  /** `pd.DataFrame({...})` of the seven lists: row `i` takes entry `i` of
      each list. */
  function Frame(c: Columns): (t: seq<OddsRow>)
    requires Lockstep(c)
    ensures |t| == |c.sports|
  {
    seq(|c.sports|, i requires 0 <= i < |c.sports| =>
      OddsRow(c.sports[i], c.matchDates[i], c.homeTeams[i], c.awayTeams[i],
              c.homeOdds[i], c.awayOdds[i], c.bookmakers[i]))
  }

  /** Entry `i` of each list comes from row `i` of the table. */
  lemma {:induction false} ColumnsOfEntries(t: seq<OddsRow>)
    ensures var c := ColumnsOf(t);
      forall i :: 0 <= i < |t| ==>
        OddsRow(c.sports[i], c.matchDates[i], c.homeTeams[i], c.awayTeams[i],
                c.homeOdds[i], c.awayOdds[i], c.bookmakers[i]) == t[i]
  {
    if t != [] {
      ColumnsOfEntries(t[..|t| - 1]);
    }
  }

  /** Splitting a table into columns and building the frame again gives the
      table back. */
  lemma FrameOfColumns(t: seq<OddsRow>)
    ensures Frame(ColumnsOf(t)) == t
  {
    ColumnsOfEntries(t);
  }

  /** Lists in lockstep are the columns of their frame. */
  lemma ColumnsOfFrame(c: Columns)
    requires Lockstep(c)
    ensures ColumnsOf(Frame(c)) == c
  {
    var t := Frame(c);
    var d := ColumnsOf(t);
    ColumnsOfEntries(t);
    assert forall i :: 0 <= i < |t| ==> d.sports[i] == t[i].sport == c.sports[i];
    assert d.sports == c.sports;
    assert d.matchDates == c.matchDates;
    assert d.homeTeams == c.homeTeams;
    assert d.awayTeams == c.awayTeams;
    assert d.homeOdds == c.homeOdds;
    assert d.awayOdds == c.awayOdds;
    assert d.bookmakers == c.bookmakers;
  }

  /** Appending a row to every list is appending it to the table. */
  lemma ColumnsOfSnoc(t: seq<OddsRow>, x: OddsRow)
    ensures ColumnsOf(t + [x]) == Push(ColumnsOf(t), x)
  {
    assert (t + [x])[..|t|] == t;
  }

  /** The lists after appending the rows of `quotes` tagged with `sport` to
      the lists of the rows `done`, or the error that stopped the loop. */
  function AppendedColumns(done: seq<OddsRow>, sport: string, quotes: Result<seq<Quote>, CleanError>): Result<Columns, CleanError> {
    match quotes
    case Err(e) => Err(e)
    case Ok(qs) => Ok(ColumnsOf(done + WithSport(sport, qs)))
  }

  /** `clean_table(df, sport)` of the compiler. */
  method CleanTable(rows: seq<RawRow>, sport: string) returns (r: Result<seq<OddsRow>, CleanError>)
    ensures r == TaggedTable(AmericanToDecimal, rows, sport)
  {
    r := CleanTableWith(AmericanToDecimal, rows, sport);
  }

  /** The loops of `clean_table`, with the nested `american_to_decimal`
      passed in as `convert`; the lists stay in lockstep and the frame
      built from them is the table of quotes. */
  method CleanTableWith(convert: Converter, rows: seq<RawRow>, sport: string) returns (r: Result<seq<OddsRow>, CleanError>)
    ensures r == TaggedTable(convert, rows, sport)
  {
    ghost var f := MatchQuotesOf(convert, rows);
    ghost var quotes: seq<Quote> := [];
    var uniqueMatches := UniqueMatches(rows);
    var lists := Columns([], [], [], [], [], [], []);
    for mi := 0 to |uniqueMatches|
      invariant Concat(f, uniqueMatches[..mi]) == Ok(quotes)
      invariant lists == ColumnsOf(WithSport(sport, quotes))
    {
      ConcatStep(f, uniqueMatches, mi, quotes);
      var more := AppendMatch(convert, lists, WithSport(sport, quotes), rows, uniqueMatches[mi], sport);
      if more.Err? {
        ConcatErrPrefix(f, uniqueMatches, mi + 1);
        return Err(more.error);
      }
      WithSportAppend(sport, quotes, f(uniqueMatches[mi]).value);
      quotes := quotes + f(uniqueMatches[mi]).value;
      lists := more.value;
    }
    TakeAll(uniqueMatches);
    FrameOfColumns(WithSport(sport, quotes));
    return Ok(Frame(lists));
  }

  /** The inner loop: the bookmakers of one match append to the lists,
      which already hold the rows `done`. */
  method AppendMatch(convert: Converter, lists: Columns, ghost done: seq<OddsRow>, rows: seq<RawRow>,
                     match_: MatchKey, sport: string) returns (r: Result<Columns, CleanError>)
    requires lists == ColumnsOf(done)
    ensures r == AppendedColumns(done, sport, MatchQuotes(convert, rows, match_))
  {
    var matchData := MatchData(rows, match_);
    var bookmakers := UniqueBookmakers(matchData);
    ghost var g := BookmakerQuoteOf(convert, match_, matchData);
    ghost var matchQuotes: seq<Quote> := [];
    var out := lists;
    assert done + WithSport(sport, []) == done;
    for bi := 0 to |bookmakers|
      invariant Concat(g, bookmakers[..bi]) == Ok(matchQuotes)
      invariant out == ColumnsOf(done + WithSport(sport, matchQuotes))
    {
      var bookmaker := bookmakers[bi];
      ConcatStep(g, bookmakers, bi, matchQuotes);
      var matchOdds := MatchOdds(matchData, bookmaker);
      var step := AppendBookmaker(convert, out, done + WithSport(sport, matchQuotes), matchOdds, match_, bookmaker, sport);
      if step.Err? {
        ConcatErrPrefix(g, bookmakers, bi + 1);
        return Err(step.error);
      }
      ghost var qs := g(bookmaker).value;
      TaggedAppend(done, sport, matchQuotes, qs);
      out := step.value;
      matchQuotes := matchQuotes + qs;
    }
    TakeAll(bookmakers);
    return Ok(out);
  }

  /** The body of the inner loop: a bookmaker with exactly two rows for the
      match appends one entry to each of the seven lists. */
  method AppendBookmaker(convert: Converter, lists: Columns, ghost done: seq<OddsRow>, matchOdds: seq<RawRow>,
                         match_: MatchKey, bookmaker: string, sport: string) returns (r: Result<Columns, CleanError>)
    requires lists == ColumnsOf(done)
    ensures r == AppendedColumns(done, sport, BookmakerQuote(convert, match_, bookmaker, matchOdds))
  {
    if |matchOdds| != 2 {
      assert done + WithSport(sport, []) == done;
      return Ok(lists);
    }
    var homeTeamOdds := TeamOdds(convert, matchOdds, match_.home);
    if homeTeamOdds.Err? {
      return Err(homeTeamOdds.error);
    }
    var awayTeamOdds := TeamOdds(convert, matchOdds, match_.away);
    if awayTeamOdds.Err? {
      return Err(awayTeamOdds.error);
    }
    var out := lists;
    out := out.(matchDates := out.matchDates + [match_.date]);
    out := out.(homeTeams := out.homeTeams + [match_.home]);
    out := out.(awayTeams := out.awayTeams + [match_.away]);
    out := out.(homeOdds := out.homeOdds + [homeTeamOdds.value]);
    out := out.(awayOdds := out.awayOdds + [awayTeamOdds.value]);
    out := out.(bookmakers := out.bookmakers + [bookmaker]);
    out := out.(sports := out.sports + [sport]);
    ghost var q := Quote(match_.date, match_.home, match_.away, homeTeamOdds.value, awayTeamOdds.value, bookmaker);
    assert WithSport(sport, [q]) == [Tag(sport, q)];
    ColumnsOfSnoc(done, Tag(sport, q));
    return Ok(out);
  }
}
