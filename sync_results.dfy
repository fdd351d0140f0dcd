/** `sync_results` (`sync.py`): today's results file is joined to today's
    games list with a left merge on (Sport, Home Team, Away Team), every row
    gets a `Match Result`, and twelve columns are written out. */
module SyncResults {
  import opened Wrappers
  import opened Seqs
  import opened Timestamps
  import opened Merge
  import opened Records
  import opened Cleaning
  import opened DatedGames

  /** The values of `Match Result`. */
  datatype MatchResult = NotCompleted | Unknown | Home | Away | Tie

  /** `determine_winner(row)`: the status decides first, then a missing
      score, then the numeric comparison of the scores. */
  function DetermineWinner(status: string, homeScore: Option<int>, awayScore: Option<int>): MatchResult {
    if status != "Completed" then NotCompleted
    else if homeScore.None? || awayScore.None? then Unknown
    else if homeScore.value > awayScore.value then Home
    else if homeScore.value < awayScore.value then Away
    else Tie
  }

  /** A row of the output file: the twelve columns of lines 36-41, in that
      order. The odds columns are missing for a result no game matched;
      `Match Date` is the game's timestamp, missing as well when the game's
      date was `NaT`. */
  datatype OutRow = OutRow(sport: string, matchDate: Option<DateTime>, home: string, away: string,
                           homeScore: Option<int>, awayScore: Option<int>, status: string, gameId: string,
                           homeOdds: Option<real>, awayOdds: Option<real>, bookmaker: Option<string>,
                           matchResult: MatchResult)

  /** A row of the merge, cut to the output columns, with its result. */
  function OutputRow(p: (ResultRecord, Option<DatedGame>)): OutRow {
    var (r, g) := p;
    var homeScore := ReadScore(r.homeScore);
    var awayScore := ReadScore(r.awayScore);
    OutRow(r.sport, if g.Some? && g.value.matchDate.At? then Some(g.value.matchDate.time) else None, r.home, r.away,
           homeScore, awayScore, r.status, r.gameId,
           if g.Some? then Some(g.value.homeOdds) else None,
           if g.Some? then Some(g.value.awayOdds) else None,
           if g.Some? then Some(g.value.bookmaker) else None,
           DetermineWinner(r.status, homeScore, awayScore))
  }

  /** The output table, or the date text that stops the script; the dates
      are read with the format `"%b %d, %Y, %I:%M %p"`, a missing one as
      `NaT`. */
  function SyncedResults(results: seq<ResultRecord>, games: seq<OddsRow>): Result<seq<OutRow>, string> {
    var dated :- ParseGames(ReadDate, games);
    Ok(Map(LeftJoin(results, dated, ResultKey, DatedKey), OutputRow))
  }

  /** The script on the two tables it reads. */
  method SyncResultsOf(results: seq<ResultRecord>, games: seq<OddsRow>) returns (r: Result<seq<OutRow>, string>)
    ensures r == SyncedResults(results, games)
  {
    var gamesDf := ParseGames(ReadDate, games);
    if gamesDf.Err? {
      return Err(gamesDf.error);
    }
    var mergedDf := LeftJoin(results, gamesDf.value, ResultKey, DatedKey);
    var outputDf := Map(mergedDf, OutputRow);
    return Ok(outputDf);
  }

  // ---------------------------------------------------------------------
  // Properties

  /** The five outcomes of `determine_winner`, each with its condition. */
  lemma DetermineWinnerCases(status: string, homeScore: Option<int>, awayScore: Option<int>)
    ensures var w := DetermineWinner(status, homeScore, awayScore);
      && (w == NotCompleted <==> status != "Completed")
      && (w == Unknown <==> status == "Completed" && (homeScore.None? || awayScore.None?))
      && (w == Home <==> status == "Completed" && homeScore.Some? && awayScore.Some? && homeScore.value > awayScore.value)
      && (w == Away <==> status == "Completed" && homeScore.Some? && awayScore.Some? && homeScore.value < awayScore.value)
      && (w == Tie <==> status == "Completed" && homeScore.Some? && awayScore.Some? && homeScore.value == awayScore.value)
  {
  }

  /** The script stops exactly when a date of the games list is neither
      missing nor the rendering of a time a nanosecond timestamp holds. A game whose date is missing is still
      joined, with its `Match Date` missing (`SyncedResultsMember`). */
  lemma SyncedResultsFails(results: seq<ResultRecord>, games: seq<OddsRow>)
    ensures SyncedResults(results, games).Err? <==>
      exists i :: 0 <= i < |games| && Unreadable(games[i].date)
  {
    forall i | 0 <= i < |games| {
      ReadDateCases(games[i].date);
    }
  }

  /** A results row and what the left join pairs it with: a game of the
      same key, or nothing when no game has that key. */
  predicate Joined(results: seq<ResultRecord>, dated: seq<DatedGame>, p: (ResultRecord, Option<DatedGame>)) {
    p.0 in results && match p.1
      case Some(d) => d in dated && DatedKey(d) == ResultKey(p.0)
      case None => forall d :: d in dated ==> DatedKey(d) != ResultKey(p.0)
  }

  /** Every output row comes from one results row joined to a game or to
      nothing, and every such pairing is in the output. */
  lemma SyncedResultsMember(results: seq<ResultRecord>, games: seq<OddsRow>, x: OutRow)
    requires SyncedResults(results, games).Ok?
    ensures x in SyncedResults(results, games).value <==>
      exists p :: Joined(results, ParseGames(ReadDate, games).value, p) && OutputRow(p) == x
  {
    var dated := ParseGames(ReadDate, games).value;
    var lj := LeftJoin(results, dated, ResultKey, DatedKey);
    MapMember(lj, OutputRow, x);
    forall p ensures p in lj <==> Joined(results, dated, p) {
      LeftJoinMember(results, dated, ResultKey, DatedKey, p.0, p.1);
    }
  }

  /** The left join keeps every results row: one output row per matching
      game, or exactly one when none matches. */
  lemma SyncedResultsSize(results: seq<ResultRecord>, games: seq<OddsRow>)
    requires SyncedResults(results, games).Ok?
    ensures var dated := ParseGames(ReadDate, games).value;
      |SyncedResults(results, games).value| ==
        MatchTotal(results, dated, ResultKey, DatedKey) + |Unmatched(dated, results, DatedKey, ResultKey)|
    ensures |results| <= |SyncedResults(results, games).value|
  {
    LeftJoinSize(results, ParseGames(ReadDate, games).value, ResultKey, DatedKey);
  }
}
