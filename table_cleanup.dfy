/** The first clean-up script (`archive/table_cleanup.py`), which reads the
    scraped table of one sport from its CSV file and regroups it into one
    two-way quote per match and bookmaker, kept in six parallel lists that
    become the columns of the cleaned frame. Unlike the later revisions it
    works on the table as `read_csv` reads it, where a missing cell is
    `NaN`, which no mask matches. */
module TableCleanup {
  import opened Wrappers
  import opened Seqs
  import opened AmericanOdds
  import opened Extraction
  import opened Records
  import opened Cleaning

  /** A match key none of whose cells `read_csv` made `NaN`. */
  predicate KnownKey(k: MatchKey) {
    !NullCell(k.date) && !NullCell(k.home) && !NullCell(k.away)
  }

  /** A row whose key and bookmaker cells all hold a value. */
  predicate KnownRow(r: RawRow) {
    KnownKey(KeyOf(r)) && !NullCell(r.bookmaker)
  }

  /** The mask of lines 33-37: a `NaN` in the key equals no cell, so such a
      key selects no row; a `NaN` cell of a row differs from every key cell
      that holds a value, as its text does. */
  function CsvMatchData(rows: seq<RawRow>, k: MatchKey): seq<RawRow> {
    if KnownKey(k) then MatchData(rows, k) else []
  }

  /** The mask of line 41: a `NaN` bookmaker selects no row. */
  function CsvMatchOdds(matchData: seq<RawRow>, b: string): seq<RawRow> {
    if NullCell(b) then [] else MatchOdds(matchData, b)
  }

  function CsvBookmakerQuoteOf(convert: Converter, k: MatchKey, matchData: seq<RawRow>): string -> Result<seq<Quote>, CleanError> {
    b => BookmakerQuote(convert, k, b, CsvMatchOdds(matchData, b))
  }

  /** The quotes of one match, bookmaker by bookmaker. `unique()` lists one
      `NaN` where the text lists each spelling of a missing cell; either way
      they select no row and give nothing. */
  function CsvMatchQuotes(convert: Converter, rows: seq<RawRow>, k: MatchKey): Result<seq<Quote>, CleanError> {
    var matchData := CsvMatchData(rows, k);
    Concat(CsvBookmakerQuoteOf(convert, k, matchData), UniqueBookmakers(matchData))
  }

  function CsvMatchQuotesOf(convert: Converter, rows: seq<RawRow>): MatchKey -> Result<seq<Quote>, CleanError> {
    k => CsvMatchQuotes(convert, rows, k)
  }

  /** The cleaned table of the rows as `read_csv` reads them, match by
      match; the first failing price aborts the script. */
  function CsvCleanTable(convert: Converter, rows: seq<RawRow>): Result<seq<Quote>, CleanError> {
    Concat(CsvMatchQuotesOf(convert, rows), UniqueMatches(rows))
  }

  /** A quote of one match comes from a two-row group of that match whose
      key and bookmaker hold values. */
  lemma CsvQuoteOfMatch(convert: Converter, rows: seq<RawRow>, k: MatchKey, q: Quote)
    requires CsvMatchQuotes(convert, rows, k).Ok? && q in CsvMatchQuotes(convert, rows, k).value
    ensures KnownKey(k) && !NullCell(q.bookmaker) && QuoteKey(q) == k
    ensures var odds := Group(rows, k, q.bookmaker);
      && |odds| == 2
      && TeamOdds(convert, odds, q.home) == Ok(q.homeOdds)
      && TeamOdds(convert, odds, q.away) == Ok(q.awayOdds)
  {
    var md := CsvMatchData(rows, k);
    var g := CsvBookmakerQuoteOf(convert, k, md);
    ConcatMember(g, UniqueBookmakers(md), q);
    var b :| b in UniqueBookmakers(md) && g(b).Ok? && q in g(b).value;
    BookmakerQuoteShape(convert, k, b, CsvMatchOdds(md, b), q);
  }

  /** Every quote was computed from a group of exactly two rows of the table
      whose match key and bookmaker are not `NaN`, with the home and away
      prices of that group; and every such group gives its quote. */
  lemma CsvCleanTableQuotes(convert: Converter, rows: seq<RawRow>, q: Quote)
    requires CsvCleanTable(convert, rows).Ok?
    ensures q in CsvCleanTable(convert, rows).value <==>
      var odds := Group(rows, QuoteKey(q), q.bookmaker);
      && KnownKey(QuoteKey(q)) && !NullCell(q.bookmaker)
      && |odds| == 2
      && TeamOdds(convert, odds, q.home) == Ok(q.homeOdds)
      && TeamOdds(convert, odds, q.away) == Ok(q.awayOdds)
  {
    if q in CsvCleanTable(convert, rows).value {
      var f := CsvMatchQuotesOf(convert, rows);
      ConcatMember(f, UniqueMatches(rows), q);
      var k :| k in UniqueMatches(rows) && f(k).Ok? && q in f(k).value;
      CsvQuoteOfMatch(convert, rows, k, q);
    }
    var odds := Group(rows, QuoteKey(q), q.bookmaker);
    if && KnownKey(QuoteKey(q)) && !NullCell(q.bookmaker) && |odds| == 2
       && TeamOdds(convert, odds, q.home) == Ok(q.homeOdds) && TeamOdds(convert, odds, q.away) == Ok(q.awayOdds)
    {
      CsvQuoteInTable(convert, rows, q);
    }
  }

  /** The reverse direction of `CsvCleanTableQuotes`: a complete group of a
      known key and bookmaker gives its quote. */
  lemma CsvQuoteInTable(convert: Converter, rows: seq<RawRow>, q: Quote)
    requires CsvCleanTable(convert, rows).Ok?
    requires KnownKey(QuoteKey(q)) && !NullCell(q.bookmaker)
    requires |Group(rows, QuoteKey(q), q.bookmaker)| == 2
    requires TeamOdds(convert, Group(rows, QuoteKey(q), q.bookmaker), q.home) == Ok(q.homeOdds)
    requires TeamOdds(convert, Group(rows, QuoteKey(q), q.bookmaker), q.away) == Ok(q.awayOdds)
    ensures q in CsvCleanTable(convert, rows).value
  {
    var f := CsvMatchQuotesOf(convert, rows);
    var k := QuoteKey(q);
    var odds := Group(rows, k, q.bookmaker);
    RowInGroups(rows, odds[0]);
    var md := MatchData(rows, k);
    var g := CsvBookmakerQuoteOf(convert, k, md);
    ConcatFails(f, UniqueMatches(rows));
    assert f(k).Ok?;
    ConcatMember(g, UniqueBookmakers(md), q);
    assert g(q.bookmaker).value == [q];
    ConcatMember(f, UniqueMatches(rows), q);
  }

  /** The script fails exactly when a group of two rows whose key and
      bookmaker hold values lacks a row for one of the teams or has a price
      that does not convert. */
  lemma CsvCleanTableFails(convert: Converter, rows: seq<RawRow>)
    ensures CsvCleanTable(convert, rows).Err? <==>
      exists r :: r in rows && KnownRow(r) && GroupFails(convert, rows, r)
  {
    var f := CsvMatchQuotesOf(convert, rows);
    ConcatFails(f, UniqueMatches(rows));
    if CsvCleanTable(convert, rows).Err? {
      var k :| k in UniqueMatches(rows) && f(k).Err?;
      var r := CsvFailingRow(convert, rows, k);
    } else {
      forall r | r in rows && KnownRow(r) ensures !GroupFails(convert, rows, r) {
        RowInGroups(rows, r);
        CsvGroupOk(convert, rows, r);
      }
    }
  }

  lemma CsvFailingRow(convert: Converter, rows: seq<RawRow>, k: MatchKey) returns (r: RawRow)
    requires CsvMatchQuotes(convert, rows, k).Err?
    ensures r in rows && KnownRow(r) && GroupFails(convert, rows, r)
  {
    var md := CsvMatchData(rows, k);
    var g := CsvBookmakerQuoteOf(convert, k, md);
    ConcatFails(g, UniqueBookmakers(md));
    var b :| b in UniqueBookmakers(md) && g(b).Err?;
    r := CsvMatchOdds(md, b)[0];
    assert r in md;
  }

  lemma CsvGroupOk(convert: Converter, rows: seq<RawRow>, r: RawRow)
    requires KnownRow(r) && CsvMatchQuotes(convert, rows, KeyOf(r)).Ok?
    requires r.bookmaker in UniqueBookmakers(MatchData(rows, KeyOf(r)))
    ensures !GroupFails(convert, rows, r)
  {
    var k := KeyOf(r);
    var md := MatchData(rows, k);
    var g := CsvBookmakerQuoteOf(convert, k, md);
    ConcatFails(g, UniqueBookmakers(md));
    assert g(r.bookmaker).Ok?;
  }

  /** On a table without a missing key or bookmaker cell the script computes
      `clean_table`, so every property proved of it carries over. */
  lemma CsvCleanTableKnown(convert: Converter, rows: seq<RawRow>)
    requires forall r :: r in rows ==> KnownRow(r)
    ensures CsvCleanTable(convert, rows) == CleanTable(convert, rows)
  {
    forall k | k in UniqueMatches(rows)
      ensures CsvMatchQuotesOf(convert, rows)(k) == MatchQuotesOf(convert, rows)(k)
    {
      var i :| 0 <= i < |rows| && Keys(rows)[i] == k;
      assert KnownRow(rows[i]);
      var md := MatchData(rows, k);
      forall b | b in UniqueBookmakers(md)
        ensures CsvBookmakerQuoteOf(convert, k, md)(b) == BookmakerQuoteOf(convert, k, md)(b)
      {
        var j :| 0 <= j < |md| && Bookmakers(md)[j] == b;
        assert md[j] in rows;
      }
      ConcatAgree(CsvBookmakerQuoteOf(convert, k, md), BookmakerQuoteOf(convert, k, md), UniqueBookmakers(md));
    }
    ConcatAgree(CsvMatchQuotesOf(convert, rows), MatchQuotesOf(convert, rows), UniqueMatches(rows));
  }

  /** Matches come out in order of their first row in the table. */
  lemma CsvCleanTableMatchOrder(convert: Converter, rows: seq<RawRow>)
    requires CsvCleanTable(convert, rows).Ok?
    ensures InFirstAppearanceOrder(CsvCleanTable(convert, rows).value, Keys(rows), QuoteKey)
  {
    var f := CsvMatchQuotesOf(convert, rows);
    forall k, q | k in UniqueMatches(rows) && f(k).Ok? && q in f(k).value ensures QuoteKey(q) == k {
      CsvQuoteOfMatch(convert, rows, k, q);
    }
    ConcatFirstAppearanceOrder(f, Keys(rows), QuoteKey);
  }

  /** The six lists the script appends to, one per output column. */
  datatype Columns = Columns(matchDates: seq<string>, homeTeams: seq<string>, awayTeams: seq<string>,
                             homeOdds: seq<real>, awayOdds: seq<real>, bookmakers: seq<string>)

  /** All six lists have the same length, which assigning them as columns
      of one frame demands. */
  predicate Lockstep(c: Columns) {
    && |c.homeTeams| == |c.matchDates|
    && |c.awayTeams| == |c.matchDates|
    && |c.homeOdds| == |c.matchDates|
    && |c.awayOdds| == |c.matchDates|
    && |c.bookmakers| == |c.matchDates|
  }

  /** One more entry on each list. */
  function Push(c: Columns, q: Quote): Columns {
    Columns(c.matchDates + [q.date], c.homeTeams + [q.home], c.awayTeams + [q.away],
            c.homeOdds + [q.homeOdds], c.awayOdds + [q.awayOdds], c.bookmakers + [q.bookmaker])
  }

  /** The columns of a table of quotes, appended to quote by quote. */
  function ColumnsOf(t: seq<Quote>): (c: Columns)
    ensures Lockstep(c) && |c.matchDates| == |t|
  {
    if t == [] then Columns([], [], [], [], [], [])
    else Push(ColumnsOf(t[..|t| - 1]), t[|t| - 1])
  }

  /** The cleaned frame: row `i` takes entry `i` of each list. */
  function Frame(c: Columns): (t: seq<Quote>)
    requires Lockstep(c)
    ensures |t| == |c.matchDates|
  {
    seq(|c.matchDates|, i requires 0 <= i < |c.matchDates| =>
      Quote(c.matchDates[i], c.homeTeams[i], c.awayTeams[i], c.homeOdds[i], c.awayOdds[i], c.bookmakers[i]))
  }

  /** Entry `i` of each list comes from quote `i` of the table. */
  lemma {:induction false} ColumnsOfEntries(t: seq<Quote>)
    ensures var c := ColumnsOf(t);
      forall i :: 0 <= i < |t| ==>
        Quote(c.matchDates[i], c.homeTeams[i], c.awayTeams[i], c.homeOdds[i], c.awayOdds[i], c.bookmakers[i]) == t[i]
  {
    if t != [] {
      ColumnsOfEntries(t[..|t| - 1]);
    }
  }

  /** Splitting a table into columns and building the frame again gives the
      table back. */
  lemma FrameOfColumns(t: seq<Quote>)
    ensures Frame(ColumnsOf(t)) == t
  {
    ColumnsOfEntries(t);
  }

  /** Lists in lockstep are the columns of their frame. */
  lemma ColumnsOfFrame(c: Columns)
    requires Lockstep(c)
    ensures ColumnsOf(Frame(c)) == c
  {
    var t := Frame(c);
    var d := ColumnsOf(t);
    ColumnsOfEntries(t);
    assert forall i :: 0 <= i < |t| ==> d.matchDates[i] == t[i].date == c.matchDates[i];
    assert d.matchDates == c.matchDates;
    assert d.homeTeams == c.homeTeams;
    assert d.awayTeams == c.awayTeams;
    assert d.homeOdds == c.homeOdds;
    assert d.awayOdds == c.awayOdds;
    assert d.bookmakers == c.bookmakers;
  }

  /** Appending a quote to every list is appending it to the table. */
  lemma ColumnsOfSnoc(t: seq<Quote>, q: Quote)
    ensures ColumnsOf(t + [q]) == Push(ColumnsOf(t), q)
  {
    assert (t + [q])[..|t|] == t;
  }

  /** Whether `read_csv` types the `Price` column as numbers: every cell is
      missing or an integer, read as pandas reads one. Such a column holds
      `int64` or `float64` values and no text. */
  predicate PriceColumnNumeric(df: seq<RawRow>) {
    forall r :: r in df ==> NullCell(r.price) || ReadScore(r.price).Some?
  }

  /** `american_to_decimal` on a `Price` cell as `read_csv` typed it: a
      number, or the `NaN` of a missing cell, has no `.replace`, and only
      text reaches the conversion. */
  function CsvPrice(numeric: bool): Converter {
    p => if numeric || NullCell(p) then Err(NotText) else AmericanToDecimal(p)
  }

  /** The script on the table `df` read from its CSV file: the cleaned
      frame, or the error that stops it. */
  method CleanUp(df: seq<RawRow>) returns (r: Result<seq<Quote>, CleanError>)
    ensures r == CsvCleanTable(CsvPrice(PriceColumnNumeric(df)), df)
  {
    var numeric := PriceColumnNumeric(df);
    r := CleanUpWith(CsvPrice(numeric), df);
  }

  /** On a `Price` column of numbers the script fails exactly when there is
      a group of two rows to convert, whose key and bookmaker hold values;
      otherwise it writes the empty table. */
  lemma CleanUpNumeric(df: seq<RawRow>)
    requires PriceColumnNumeric(df)
    ensures CsvCleanTable(CsvPrice(true), df).Err? <==>
      exists r :: r in df && KnownRow(r) && |Group(df, KeyOf(r), r.bookmaker)| == 2
    ensures CsvCleanTable(CsvPrice(true), df).Ok? ==> CsvCleanTable(CsvPrice(true), df).value == []
  {
    var convert := CsvPrice(true);
    CsvCleanTableFails(convert, df);
    forall r | r in df && KnownRow(r) && |Group(df, KeyOf(r), r.bookmaker)| == 2
      ensures GroupFails(convert, df, r)
    {
      var odds := Group(df, KeyOf(r), r.bookmaker);
      var named := Select(odds, TeamOf, r.home);
      if named != [] {
        assert convert(named[0].price).Err?;
      }
    }
    var t := CsvCleanTable(convert, df);
    if t.Ok? && t.value != [] {
      CsvCleanTableQuotes(convert, df, t.value[0]);
      assert false;
    }
  }

  /** On a `Price` column of text the conversion is `american_to_decimal`
      wherever a price holds a value. */
  lemma CsvPriceText(p: string)
    requires !NullCell(p)
    ensures CsvPrice(false)(p) == AmericanToDecimal(p)
  {
  }

  /** The loops of the script, with its `american_to_decimal` passed in as
      `convert`; the lists stay in lockstep and the frame built from them is
      the table of quotes. */
  method CleanUpWith(convert: Converter, df: seq<RawRow>) returns (r: Result<seq<Quote>, CleanError>)
    ensures r == CsvCleanTable(convert, df)
  {
    ghost var f := CsvMatchQuotesOf(convert, df);
    ghost var quotes: seq<Quote> := [];
    var uniqueMatches := UniqueMatches(df);
    var lists := Columns([], [], [], [], [], []);
    for mi := 0 to |uniqueMatches|
      invariant Concat(f, uniqueMatches[..mi]) == Ok(quotes)
      invariant lists == ColumnsOf(quotes)
    {
      ConcatStep(f, uniqueMatches, mi, quotes);
      var more := AppendMatch(convert, lists, quotes, df, uniqueMatches[mi]);
      if more.Err? {
        ConcatErrPrefix(f, uniqueMatches, mi + 1);
        return Err(more.error);
      }
      quotes := quotes + f(uniqueMatches[mi]).value;
      lists := more.value;
    }
    TakeAll(uniqueMatches);
    FrameOfColumns(quotes);
    return Ok(Frame(lists));
  }

  /** The lists after appending `quotes` to the lists of `done`, or the
      error that stopped the loop. */
  function AppendedColumns(done: seq<Quote>, quotes: Result<seq<Quote>, CleanError>): Result<Columns, CleanError> {
    match quotes
    case Err(e) => Err(e)
    case Ok(qs) => Ok(ColumnsOf(done + qs))
  }

  /** The inner loop: the bookmakers of one match append to the lists,
      which already hold the quotes `done`. */
  method AppendMatch(convert: Converter, lists: Columns, ghost done: seq<Quote>, df: seq<RawRow>,
                     match_: MatchKey) returns (r: Result<Columns, CleanError>)
    requires lists == ColumnsOf(done)
    ensures r == AppendedColumns(done, CsvMatchQuotes(convert, df, match_))
  {
    var matchData := CsvMatchData(df, match_);
    var bookmakers := UniqueBookmakers(matchData);
    ghost var g := CsvBookmakerQuoteOf(convert, match_, matchData);
    ghost var matchQuotes: seq<Quote> := [];
    var out := lists;
    assert done + [] == done;
    for bi := 0 to |bookmakers|
      invariant Concat(g, bookmakers[..bi]) == Ok(matchQuotes)
      invariant out == ColumnsOf(done + matchQuotes)
    {
      var bookmaker := bookmakers[bi];
      ConcatStep(g, bookmakers, bi, matchQuotes);
      var matchOdds := CsvMatchOdds(matchData, bookmaker);
      var step := AppendBookmaker(convert, out, done + matchQuotes, matchOdds, match_, bookmaker);
      if step.Err? {
        ConcatErrPrefix(g, bookmakers, bi + 1);
        return Err(step.error);
      }
      ghost var qs := g(bookmaker).value;
      AppendAssoc(done, matchQuotes, qs);
      out := step.value;
      matchQuotes := matchQuotes + qs;
    }
    TakeAll(bookmakers);
    return Ok(out);
  }

  /** The body of the inner loop: a bookmaker with exactly two rows for the
      match appends one entry to each of the six lists. */
  method AppendBookmaker(convert: Converter, lists: Columns, ghost done: seq<Quote>, matchOdds: seq<RawRow>,
                         match_: MatchKey, bookmaker: string) returns (r: Result<Columns, CleanError>)
    requires lists == ColumnsOf(done)
    ensures r == AppendedColumns(done, BookmakerQuote(convert, match_, bookmaker, matchOdds))
  {
    if |matchOdds| != 2 {
      assert done + [] == done;
      return Ok(lists);
    }
    var homeTeamOdds := TeamOdds(convert, matchOdds, match_.home);
    if homeTeamOdds.Err? {
      return Err(homeTeamOdds.error);
    }
    var awayTeamOdds := TeamOdds(convert, matchOdds, match_.away);
    if awayTeamOdds.Err? {
      return Err(awayTeamOdds.error);
    }
    var out := lists;
    out := out.(matchDates := out.matchDates + [match_.date]);
    out := out.(homeTeams := out.homeTeams + [match_.home]);
    out := out.(awayTeams := out.awayTeams + [match_.away]);
    out := out.(homeOdds := out.homeOdds + [homeTeamOdds.value]);
    out := out.(awayOdds := out.awayOdds + [awayTeamOdds.value]);
    out := out.(bookmakers := out.bookmakers + [bookmaker]);
    ColumnsOfSnoc(done, Quote(match_.date, match_.home, match_.away, homeTeamOdds.value, awayTeamOdds.value, bookmaker));
    return Ok(out);
  }
}
