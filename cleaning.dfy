/** `clean_table`: the flat table of scraped prices becomes one two-way
    quote per match and bookmaker. Matches are the distinct
    (Match Date, Home Team, Away Team) triples in order of first appearance;
    within a match, bookmakers in order of first appearance; a bookmaker
    yields a quote only when it has exactly two rows for the match, and the
    home and away prices are those of the first row naming each team. This
    module is the specification shared by the three revisions of the
    clean-up, which differ only in how they store the result. */
module Cleaning {
  import opened Wrappers
  import opened Seqs
  import opened AmericanOdds
  import opened Extraction

  datatype MatchKey = MatchKey(date: string, home: string, away: string)

  /** One bookmaker's two-way quote for a match, prices in decimal form. */
  datatype Quote = Quote(date: string, home: string, away: string,
                         homeOdds: real, awayOdds: real, bookmaker: string)

  /** The price conversion: `american_to_decimal` (`AmericanToDecimal`) in
      every revision; a parameter here so that the table logic is stated
      apart from the text parsing. */
  type Converter = string -> Result<real, OddsError>

  datatype CleanError =
    | MissingTeamRow(team: string)   // `.iloc[0]` on an empty selection
    | BadPrice(error: OddsError)     // `american_to_decimal` raises

  function KeyOf(r: RawRow): MatchKey {
    MatchKey(r.date, r.home, r.away)
  }

  function BookmakerOf(r: RawRow): string {
    r.bookmaker
  }

  function TeamOf(r: RawRow): string {
    r.team
  }

  function QuoteKey(q: Quote): MatchKey {
    MatchKey(q.date, q.home, q.away)
  }

  function QuoteBookmaker(q: Quote): string {
    q.bookmaker
  }

  /** The three key columns of every row. */
  function Keys(rows: seq<RawRow>): (r: seq<MatchKey>)
    ensures |r| == |rows| && forall i :: 0 <= i < |rows| ==> r[i] == KeyOf(rows[i])
  {
    seq(|rows|, i requires 0 <= i < |rows| => KeyOf(rows[i]))
  }

  /** The `Bookmaker` column. */
  function Bookmakers(rows: seq<RawRow>): (r: seq<string>)
    ensures |r| == |rows| && forall i :: 0 <= i < |rows| ==> r[i] == rows[i].bookmaker
  {
    seq(|rows|, i requires 0 <= i < |rows| => rows[i].bookmaker)
  }

  /** `df[['Match Date', 'Home Team', 'Away Team']].drop_duplicates()`. */
  function UniqueMatches(rows: seq<RawRow>): seq<MatchKey> {
    Distinct(Keys(rows))
  }

  /** The rows of one match. */
  function MatchData(rows: seq<RawRow>, k: MatchKey): seq<RawRow> {
    Select(rows, KeyOf, k)
  }

  /** `match_data['Bookmaker'].unique()`. */
  function UniqueBookmakers(matchData: seq<RawRow>): seq<string> {
    Distinct(Bookmakers(matchData))
  }

  /** The rows of one bookmaker within a match. */
  function MatchOdds(matchData: seq<RawRow>, b: string): seq<RawRow> {
    Select(matchData, BookmakerOf, b)
  }

  /** The rows of the table with match key `k` and bookmaker `b`. */
  function Group(rows: seq<RawRow>, k: MatchKey, b: string): seq<RawRow> {
    MatchOdds(MatchData(rows, k), b)
  }

  /** `american_to_decimal(odds[odds['Team'] == team]['Price'].iloc[0])`. */
  function TeamOdds(convert: Converter, odds: seq<RawRow>, team: string): Result<real, CleanError> {
    var named := Select(odds, TeamOf, team);
    if named == [] then Err(MissingTeamRow(team))
    else
      match convert(named[0].price)
      case Err(e) => Err(BadPrice(e))
      case Ok(d) => Ok(d)
  }

  /** What one bookmaker contributes to a match: nothing unless it has
      exactly two rows, and then one quote, the home price read first. */
  function BookmakerQuote(convert: Converter, k: MatchKey, b: string, odds: seq<RawRow>): (r: Result<seq<Quote>, CleanError>)
    ensures r.Ok? ==> |r.value| <= 1 && (|r.value| == 1 <==> |odds| == 2)
  {
    if |odds| != 2 then Ok([])
    else
      var h :- TeamOdds(convert, odds, k.home);
      var a :- TeamOdds(convert, odds, k.away);
      Ok([Quote(k.date, k.home, k.away, h, a, b)])
  }

  function BookmakerQuoteOf(convert: Converter, k: MatchKey, matchData: seq<RawRow>): string -> Result<seq<Quote>, CleanError> {
    b => BookmakerQuote(convert, k, b, MatchOdds(matchData, b))
  }

  /** The quotes of one match, bookmaker by bookmaker. */
  function MatchQuotes(convert: Converter, rows: seq<RawRow>, k: MatchKey): Result<seq<Quote>, CleanError> {
    var matchData := MatchData(rows, k);
    Concat(BookmakerQuoteOf(convert, k, matchData), UniqueBookmakers(matchData))
  }

  function MatchQuotesOf(convert: Converter, rows: seq<RawRow>): MatchKey -> Result<seq<Quote>, CleanError> {
    k => MatchQuotes(convert, rows, k)
  }

  /** `clean_table` without its `Sport` column: the quotes of all matches,
      match by match; the first failing price aborts the call. */
  function CleanTable(convert: Converter, rows: seq<RawRow>): Result<seq<Quote>, CleanError> {
    Concat(MatchQuotesOf(convert, rows), UniqueMatches(rows))
  }

  /** A row of the cleaned table of the revisions that add a `Sport`
      column (the daily saver and the compiler). */
  datatype OddsRow = OddsRow(sport: string, date: string, home: string, away: string,
                             homeOdds: real, awayOdds: real, bookmaker: string)

  function Tag(sport: string, q: Quote): OddsRow {
    OddsRow(sport, q.date, q.home, q.away, q.homeOdds, q.awayOdds, q.bookmaker)
  }

  /** The quotes with the sport in front. */
  function WithSport(sport: string, qs: seq<Quote>): (r: seq<OddsRow>)
    ensures |r| == |qs|
  {
    seq(|qs|, i requires 0 <= i < |qs| => Tag(sport, qs[i]))
  }

  /** `clean_table(df, sport)` of the revisions with a `Sport` column. */
  function TaggedTable(convert: Converter, rows: seq<RawRow>, sport: string): Result<seq<OddsRow>, CleanError> {
    match CleanTable(convert, rows)
    case Err(e) => Err(e)
    case Ok(qs) => Ok(WithSport(sport, qs))
  }

  lemma WithSportAppend(sport: string, qs: seq<Quote>, more: seq<Quote>)
    ensures WithSport(sport, qs + more) == WithSport(sport, qs) + WithSport(sport, more)
  {
  }

  /** Tagging the quotes of one more step and appending them is tagging the
      longer run. */
  lemma TaggedAppend(done: seq<OddsRow>, sport: string, qs: seq<Quote>, more: seq<Quote>)
    ensures done + WithSport(sport, qs + more) == (done + WithSport(sport, qs)) + WithSport(sport, more)
  {
    WithSportAppend(sport, qs, more);
  }

  /** The quote a row of the tagged table carries. */
  function Untag(x: OddsRow): Quote {
    Quote(x.date, x.home, x.away, x.homeOdds, x.awayOdds, x.bookmaker)
  }

  /** Every row of the cleaned table carries the sport it was called with
      and a quote of the untagged table, and every such quote is there; at
      most one row per two scraped rows. */
  lemma TaggedTableRows(convert: Converter, rows: seq<RawRow>, sport: string, x: OddsRow)
    requires TaggedTable(convert, rows, sport).Ok?
    ensures 2 * |TaggedTable(convert, rows, sport).value| <= |rows|
    ensures x in TaggedTable(convert, rows, sport).value <==>
      x.sport == sport && Untag(x) in CleanTable(convert, rows).value
  {
    CleanTableSize(convert, rows);
    WithSportMember(sport, CleanTable(convert, rows).value, x);
  }

  lemma WithSportMember(sport: string, qs: seq<Quote>, x: OddsRow)
    ensures x in WithSport(sport, qs) <==> x.sport == sport && Untag(x) in qs
  {
    var t := WithSport(sport, qs);
    if x in t {
      var i :| 0 <= i < |t| && t[i] == x;
      assert Untag(x) == qs[i];
    }
    if x.sport == sport && Untag(x) in qs {
      var i :| 0 <= i < |qs| && qs[i] == Untag(x);
      assert t[i] == x;
    }
  }

  // ---------------------------------------------------------------------
  // Properties

  /** The first row naming a team is the one whose price is read. */
  lemma TeamOddsFirstRow(convert: Converter, odds: seq<RawRow>, team: string)
    ensures TeamOdds(convert, odds, team).Err? && TeamOdds(convert, odds, team).error.MissingTeamRow?
      <==> forall i :: 0 <= i < |odds| ==> odds[i].team != team
    ensures (exists i :: 0 <= i < |odds| && odds[i].team == team) ==>
      var i := FirstIndex(odds, TeamOf, team);
      TeamOdds(convert, odds, team) == match convert(odds[i].price)
        case Err(e) => Err(BadPrice(e))
        case Ok(d) => Ok(d)
  {
    if exists i :: 0 <= i < |odds| && odds[i].team == team {
      var i :| 0 <= i < |odds| && odds[i].team == team;
      assert odds[i] in odds;
      SelectFirst(odds, TeamOf, team);
    } else {
      SelectNone(odds, TeamOf, team);
    }
  }

  /** Every quote was computed from a group of exactly two rows of the
      table, with the home and away prices of that group; and every such
      group gives its quote. */
  lemma CleanTableQuotes(convert: Converter, rows: seq<RawRow>, q: Quote)
    requires CleanTable(convert, rows).Ok?
    ensures q in CleanTable(convert, rows).value <==>
      var odds := Group(rows, QuoteKey(q), q.bookmaker);
      && |odds| == 2
      && TeamOdds(convert, odds, q.home) == Ok(q.homeOdds)
      && TeamOdds(convert, odds, q.away) == Ok(q.awayOdds)
  {
    if q in CleanTable(convert, rows).value {
      QuoteFromGroup(convert, rows, q);
    }
    var odds := Group(rows, QuoteKey(q), q.bookmaker);
    if |odds| == 2 && TeamOdds(convert, odds, q.home) == Ok(q.homeOdds) && TeamOdds(convert, odds, q.away) == Ok(q.awayOdds) {
      GroupGivesQuote(convert, rows, q);
    }
  }

  lemma QuoteFromGroup(convert: Converter, rows: seq<RawRow>, q: Quote)
    requires CleanTable(convert, rows).Ok? && q in CleanTable(convert, rows).value
    ensures var odds := Group(rows, QuoteKey(q), q.bookmaker);
      && |odds| == 2
      && TeamOdds(convert, odds, q.home) == Ok(q.homeOdds)
      && TeamOdds(convert, odds, q.away) == Ok(q.awayOdds)
  {
    ConcatMember(MatchQuotesOf(convert, rows), UniqueMatches(rows), q);
    var k :| k in UniqueMatches(rows) && MatchQuotesOf(convert, rows)(k).Ok? && q in MatchQuotesOf(convert, rows)(k).value;
    QuoteOfMatch(convert, rows, k, q);
  }

  lemma GroupGivesQuote(convert: Converter, rows: seq<RawRow>, q: Quote)
    requires CleanTable(convert, rows).Ok?
    requires var odds := Group(rows, QuoteKey(q), q.bookmaker);
      && |odds| == 2
      && TeamOdds(convert, odds, q.home) == Ok(q.homeOdds)
      && TeamOdds(convert, odds, q.away) == Ok(q.awayOdds)
    ensures q in CleanTable(convert, rows).value
  {
    var k := QuoteKey(q);
    var odds := Group(rows, k, q.bookmaker);
    RowInGroups(rows, odds[0]);
    var md := MatchData(rows, k);
    ConcatFails(MatchQuotesOf(convert, rows), UniqueMatches(rows));
    assert MatchQuotesOf(convert, rows)(k).Ok?;
    ConcatMember(BookmakerQuoteOf(convert, k, md), UniqueBookmakers(md), q);
    assert BookmakerQuoteOf(convert, k, md)(q.bookmaker).value == [q];
    assert q in MatchQuotesOf(convert, rows)(k).value;
    ConcatMember(MatchQuotesOf(convert, rows), UniqueMatches(rows), q);
  }

  /** Each row lies in the group of its own match and bookmaker, and that
      group is visited. */
  lemma RowInGroups(rows: seq<RawRow>, r: RawRow)
    requires r in rows
    ensures KeyOf(r) in UniqueMatches(rows)
    ensures r.bookmaker in UniqueBookmakers(MatchData(rows, KeyOf(r)))
    ensures r in Group(rows, KeyOf(r), r.bookmaker)
  {
    var md := MatchData(rows, KeyOf(r));
    var i :| 0 <= i < |rows| && rows[i] == r;
    assert Keys(rows)[i] == KeyOf(r);
    assert r in md;
    var j :| 0 <= j < |md| && md[j] == r;
    assert Bookmakers(md)[j] == r.bookmaker;
  }

  /** A quote of one match's run carries that match's key and comes from a
      two-row group with those prices. */
  lemma QuoteOfMatch(convert: Converter, rows: seq<RawRow>, k: MatchKey, q: Quote)
    requires MatchQuotes(convert, rows, k).Ok? && q in MatchQuotes(convert, rows, k).value
    ensures QuoteKey(q) == k
    ensures var odds := Group(rows, k, q.bookmaker);
      && |odds| == 2
      && TeamOdds(convert, odds, q.home) == Ok(q.homeOdds)
      && TeamOdds(convert, odds, q.away) == Ok(q.awayOdds)
  {
    var md := MatchData(rows, k);
    ConcatMember(BookmakerQuoteOf(convert, k, md), UniqueBookmakers(md), q);
    var b :| b in UniqueBookmakers(md) && BookmakerQuoteOf(convert, k, md)(b).Ok? && q in BookmakerQuoteOf(convert, k, md)(b).value;
    BookmakerQuoteShape(convert, k, b, MatchOdds(md, b), q);
  }

  lemma BookmakerQuoteShape(convert: Converter, k: MatchKey, b: string, odds: seq<RawRow>, q: Quote)
    requires BookmakerQuote(convert, k, b, odds).Ok? && q in BookmakerQuote(convert, k, b, odds).value
    ensures |odds| == 2 && QuoteKey(q) == k && q.bookmaker == b
    ensures TeamOdds(convert, odds, k.home) == Ok(q.homeOdds) && TeamOdds(convert, odds, k.away) == Ok(q.awayOdds)
  {
  }

  /** Every output row needs two input rows of its own: at most half as
      many quotes as rows. */
  lemma CleanTableSize(convert: Converter, rows: seq<RawRow>)
    requires CleanTable(convert, rows).Ok?
    ensures 2 * |CleanTable(convert, rows).value| <= |rows|
  {
    var ks := UniqueMatches(rows);
    forall k | k in ks && MatchQuotesOf(convert, rows)(k).Ok?
      ensures 2 * |MatchQuotesOf(convert, rows)(k).value| <= |Select(rows, KeyOf, k)|
    {
      MatchQuotesSize(convert, rows, k);
    }
    ConcatHalfSizes(MatchQuotesOf(convert, rows), rows, KeyOf, ks);
    SumSizesBound(rows, KeyOf, ks);
  }

  lemma MatchQuotesSize(convert: Converter, rows: seq<RawRow>, k: MatchKey)
    requires MatchQuotes(convert, rows, k).Ok?
    ensures 2 * |MatchQuotes(convert, rows, k).value| <= |MatchData(rows, k)|
  {
    var md := MatchData(rows, k);
    var bs := UniqueBookmakers(md);
    ConcatHalfSizes(BookmakerQuoteOf(convert, k, md), md, BookmakerOf, bs);
    SumSizesBound(md, BookmakerOf, bs);
  }

  /** The call fails exactly when some bookmaker with exactly two rows for a
      match lacks a row for one of the teams or has a price that does not
      convert. */
  lemma CleanTableFails(convert: Converter, rows: seq<RawRow>)
    ensures CleanTable(convert, rows).Err? <==> exists r :: r in rows && GroupFails(convert, rows, r)
  {
    var ks := UniqueMatches(rows);
    ConcatFails(MatchQuotesOf(convert, rows), ks);
    if CleanTable(convert, rows).Err? {
      var k :| k in ks && MatchQuotesOf(convert, rows)(k).Err?;
      var r := FailingRow(convert, rows, k);
    } else {
      forall r | r in rows ensures !GroupFails(convert, rows, r) {
        RowInGroups(rows, r);
        GroupOk(convert, rows, r);
      }
    }
  }

  /** The group of a row has two rows and cannot give its quote. */
  predicate GroupFails(convert: Converter, rows: seq<RawRow>, r: RawRow) {
    var odds := Group(rows, KeyOf(r), r.bookmaker);
    |odds| == 2 && (TeamOdds(convert, odds, r.home).Err? || TeamOdds(convert, odds, r.away).Err?)
  }

  lemma GroupOk(convert: Converter, rows: seq<RawRow>, r: RawRow)
    requires MatchQuotes(convert, rows, KeyOf(r)).Ok?
    requires r.bookmaker in UniqueBookmakers(MatchData(rows, KeyOf(r)))
    ensures !GroupFails(convert, rows, r)
  {
    var k := KeyOf(r);
    var md := MatchData(rows, k);
    ConcatFails(BookmakerQuoteOf(convert, k, md), UniqueBookmakers(md));
    assert BookmakerQuoteOf(convert, k, md)(r.bookmaker).Ok?;
  }

  lemma FailingRow(convert: Converter, rows: seq<RawRow>, k: MatchKey) returns (r: RawRow)
    requires MatchQuotes(convert, rows, k).Err?
    ensures r in rows && GroupFails(convert, rows, r)
  {
    var md := MatchData(rows, k);
    ConcatFails(BookmakerQuoteOf(convert, k, md), UniqueBookmakers(md));
    var b :| b in UniqueBookmakers(md) && BookmakerQuoteOf(convert, k, md)(b).Err?;
    var odds := MatchOdds(md, b);
    r := odds[0];
    assert r in md;
  }

  /** Matches come out in order of their first row in the table. */
  lemma CleanTableMatchOrder(convert: Converter, rows: seq<RawRow>)
    requires CleanTable(convert, rows).Ok?
    ensures InFirstAppearanceOrder(CleanTable(convert, rows).value, Keys(rows), QuoteKey)
  {
    MatchQuotesTagged(convert, rows);
    ConcatFirstAppearanceOrder(MatchQuotesOf(convert, rows), Keys(rows), QuoteKey);
  }

  lemma MatchQuotesTagged(convert: Converter, rows: seq<RawRow>)
    ensures forall k, q ::
      k in UniqueMatches(rows) && MatchQuotesOf(convert, rows)(k).Ok? && q in MatchQuotesOf(convert, rows)(k).value ==> QuoteKey(q) == k
  {
    forall k, q | k in UniqueMatches(rows) && MatchQuotesOf(convert, rows)(k).Ok? && q in MatchQuotesOf(convert, rows)(k).value
      ensures QuoteKey(q) == k
    {
      QuoteOfMatch(convert, rows, k, q);
    }
  }

  /** Within a match, quotes come out in order of each bookmaker's first row
      for the match. */
  lemma MatchQuotesBookmakerOrder(convert: Converter, rows: seq<RawRow>, k: MatchKey)
    requires MatchQuotes(convert, rows, k).Ok?
    ensures InFirstAppearanceOrder(MatchQuotes(convert, rows, k).value, Bookmakers(MatchData(rows, k)), QuoteBookmaker)
  {
    var md := MatchData(rows, k);
    var f := BookmakerQuoteOf(convert, k, md);
    forall b, q | b in UniqueBookmakers(md) && f(b).Ok? && q in f(b).value
      ensures QuoteBookmaker(q) == b
    {
      BookmakerQuoteShape(convert, k, b, MatchOdds(md, b), q);
    }
    ConcatFirstAppearanceOrder(f, Bookmakers(md), QuoteBookmaker);
  }
}
