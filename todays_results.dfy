/** `get_todays_game_results` (`results.py`): for every sport of today's odds
    file that has a key of the odds service, the games the service reports
    in which a team of today's list plays are written to the results file,
    one row per game, as they come. An error inside one sport abandons the
    rest of that sport only. */
module TodaysResults {
  import opened Wrappers
  import opened Seqs
  import opened Records
  import opened ScoresApi

  /** A row of `game_results_<date>.csv`: the sport is the service's title
      and the time its `commence_time`; a score is empty text until the
      score loop sets it. */
  datatype ResultRow = ResultRow(sport: string, eventTime: string, home: string, away: string,
                                 homeScore: string, awayScore: string, status: string, gameId: string)

  // ---------------------------------------------------------------------
  // One game

  /** `score.get('score', '')` as the CSV writer puts it in the file: a
      `null` score is `None`, which is written as the empty cell. */
  function ScoreText(s: ApiScore): string {
    if s.score.Present? then s.score.value else ""
  }

  /** One turn of the score loop on the (home, away) scores; an entry
      without `name` raises a `KeyError`, and one whose name is `null`
      equals neither team and is passed over. */
  function ApplyScore(g: ApiGame, sc: (string, string), s: ApiScore): Result<(string, string), ()> {
    if s.name.Absent? then Err(())
    else if s.name == Present(g.home) then Ok((ScoreText(s), sc.1))
    else if s.name == Present(g.away) then Ok((sc.0, ScoreText(s)))
    else Ok(sc)
  }

  function ScoreStep(g: ApiGame): ((string, string), ApiScore) -> Result<(string, string), ()> {
    (sc, s) => ApplyScore(g, sc, s)
  }

  function Unnamed(s: ApiScore): bool {
    s.name.Absent?
  }

  /** The two scores of a game: empty unless it has a non-empty `scores`
      list. */
  function GameScores(g: ApiGame): Result<(string, string), ()> {
    if g.scores.Some? && g.scores.value != [] then Fold(ScoreStep(g), ("", ""), g.scores.value)
    else Ok(("", ""))
  }

  /** `game.get('completed', False) and 'Completed' or game.get('status',
      'Scheduled')` as written to the file: a `null` status is `None`,
      written as the empty cell. */
  function Status(g: ApiGame): string {
    if g.completed then "Completed"
    else match g.status
      case Present(s) => s
      case Null => ""
      case Absent => "Scheduled"
  }

  /** The row of one game, or the error that abandons the sport. */
  function GameRow(g: ApiGame): Result<ResultRow, ()> {
    var sc :- GameScores(g);
    Ok(ResultRow(g.sportTitle, g.commenceTime, g.home, g.away, sc.0, sc.1, Status(g), g.id))
  }

  // ---------------------------------------------------------------------
  // One sport

  function OddsSport(o: OddsRecord): string {
    o.sport
  }

  /** `today_teams`: every team of today's list playing in the sport, at
      home or away. */
  function Teams(todayGames: seq<OddsRecord>, sport: string): (t: set<string>)
    ensures forall x :: x in t <==>
      exists o :: o in todayGames && o.sport == sport && (o.home == x || o.away == x)
  {
    (set o | o in todayGames && o.sport == sport :: o.home) +
    (set o | o in todayGames && o.sport == sport :: o.away)
  }

  /** A game of the service in which a team of today's list plays. */
  predicate Followed(teams: set<string>, g: ApiGame) {
    g.home in teams || g.away in teams
  }

  function FollowedBy(teams: set<string>): ApiGame -> bool {
    g => Followed(teams, g)
  }

  /** A followed game whose row cannot be made: it ends the sport. */
  predicate Breaks(teams: set<string>, g: ApiGame) {
    Followed(teams, g) && GameRow(g).Err?
  }

  /** The rows written for one sport: those of the followed games, in the
      service's order, up to the first game that breaks the sport. */
  function Written(teams: set<string>, games: seq<ApiGame>): seq<ResultRow> {
    if games == [] then []
    else if !Followed(teams, games[0]) then Written(teams, games[1..])
    else match GameRow(games[0])
      case Err(_) => []
      case Ok(r) => [r] + Written(teams, games[1..])
  }

  /** The rows of one sport of today's list: none when it has no service
      key or the request fails. */
  function SportWritten(todayGames: seq<OddsRecord>, keys: map<string, string>, fetch: Fetch, sport: string): seq<ResultRow> {
    if sport !in keys then []
    else match fetch(keys[sport])
      case None => []
      case Some(games) => Written(Teams(todayGames, sport), games)
  }

  function SportsWritten(todayGames: seq<OddsRecord>, keys: map<string, string>, fetch: Fetch, sports: seq<string>): seq<ResultRow> {
    if sports == [] then []
    else SportWritten(todayGames, keys, fetch, sports[0]) + SportsWritten(todayGames, keys, fetch, sports[1..])
  }

  /** The sports of today's list, each once, in order of first appearance
      (`today_games['Sport'].unique()`). */
  function UniqueSports(todayGames: seq<OddsRecord>): seq<string> {
    Distinct(Map(todayGames, OddsSport))
  }

  /** Everything written below the header, sport after sport. */
  function AllWritten(todayGames: seq<OddsRecord>, keys: map<string, string>, fetch: Fetch): seq<ResultRow> {
    SportsWritten(todayGames, keys, fetch, UniqueSports(todayGames))
  }

  // ---------------------------------------------------------------------
  // The script

  /** `get_todays_game_results()` on today's odds file, its sport key map
      and the request to the service: the rows it writes. */
  method GetTodaysGameResults(todayGames: seq<OddsRecord>, keys: map<string, string>, fetch: Fetch)
    returns (written: seq<ResultRow>)
    ensures written == AllWritten(todayGames, keys, fetch)
  {
    var uniqueSports := UniqueSports(todayGames);
    written := [];
    for i := 0 to |uniqueSports|
      invariant written + SportsWritten(todayGames, keys, fetch, uniqueSports[i..]) == AllWritten(todayGames, keys, fetch)
    {
      assert uniqueSports[i..][1..] == uniqueSports[i + 1..];
      ghost var before := written;
      written := WriteSportOf(written, todayGames, keys, fetch, uniqueSports[i]);
      AppendAssoc(before, SportWritten(todayGames, keys, fetch, uniqueSports[i]),
                  SportsWritten(todayGames, keys, fetch, uniqueSports[i + 1..]));
    }
    assert uniqueSports[|uniqueSports|..] == [];
    assert written + [] == written;
  }

  /** The body of the loop over the sports: a sport without a service key,
      or whose request fails, is skipped. */
  method WriteSportOf(written0: seq<ResultRow>, todayGames: seq<OddsRecord>, keys: map<string, string>,
                      fetch: Fetch, sport: string)
    returns (written: seq<ResultRow>)
    ensures written == written0 + SportWritten(todayGames, keys, fetch, sport)
  {
    if sport !in keys {
      assert written0 + [] == written0;
      return written0;
    }
    var scoresData := fetch(keys[sport]);
    if scoresData.None? {
      assert written0 + [] == written0;
      return written0;
    }
    var todayTeams := Teams(todayGames, sport);
    written := WriteSport(written0, todayTeams, scoresData.value);
  }

  /** The loop over the games of one sport, appending the rows it writes;
      the first game that breaks the sport ends it. */
  method WriteSport(written0: seq<ResultRow>, teams: set<string>, games: seq<ApiGame>)
    returns (written: seq<ResultRow>)
    ensures written == written0 + Written(teams, games)
  {
    written := written0;
    var j := 0;
    while j < |games|
      invariant 0 <= j <= |games|
      invariant written + Written(teams, games[j..]) == written0 + Written(teams, games)
    {
      var game := games[j];
      assert games[j..][1..] == games[j + 1..];
      if game.home in teams || game.away in teams {
        var row := GameResult(game);
        if row.Err? {
          assert written + [] == written;
          return;
        }
        AppendAssoc(written, [row.value], Written(teams, games[j + 1..]));
        written := written + [row.value];
      }
      j := j + 1;
    }
    assert games[j..] == [];
    assert written + [] == written;
  }

  /** The row of one followed game; the score loop updates the two scores
      in place. */
  method GameResult(g: ApiGame) returns (r: Result<ResultRow, ()>)
    ensures r == GameRow(g)
  {
    var homeScore, awayScore := "", "";
    if g.scores.Some? && g.scores.value != [] {
      var scores := g.scores.value;
      ghost var step := ScoreStep(g);
      for k := 0 to |scores|
        invariant Fold(step, ("", ""), scores[..k]) == Ok((homeScore, awayScore))
      {
        FoldStep(step, ("", ""), scores, k, (homeScore, awayScore));
        var score := scores[k];
        if score.name.Absent? {
          FoldErrPrefix(step, ("", ""), scores, k + 1);
          return Err(());
        }
        if score.name == Present(g.home) {
          homeScore := ScoreText(score);
        } else if score.name == Present(g.away) {
          awayScore := ScoreText(score);
        }
      }
      TakeAll(scores);
    }
    return Ok(ResultRow(g.sportTitle, g.commenceTime, g.home, g.away, homeScore, awayScore, Status(g), g.id));
  }

  // ---------------------------------------------------------------------
  // Properties

  /** Each score is that of the last entry of its team, a missing `score`
      read as empty text, or stays as it was when no entry names the team. */
  lemma {:induction false} ScoresLast(g: ApiGame, sc: (string, string), scores: seq<ApiScore>)
    requires Fold(ScoreStep(g), sc, scores).Ok?
    ensures Fold(ScoreStep(g), sc, scores).value ==
      (match Last(scores, HomeEntry(g)) case Some(s) => ScoreText(s) case None => sc.0,
       match Last(scores, AwayEntry(g)) case Some(s) => ScoreText(s) case None => sc.1)
  {
    if scores != [] {
      var p := scores[..|scores| - 1];
      assert Fold(ScoreStep(g), sc, p).Ok?;
      ScoresLast(g, sc, p);
    }
  }

  /** Only an entry without `name` stops the score loop; a missing `score`
      is read as empty text. */
  lemma ScoresFail(g: ApiGame, sc: (string, string), scores: seq<ApiScore>)
    ensures Fold(ScoreStep(g), sc, scores).Err? <==> exists s :: s in scores && Unnamed(s)
  {
    FoldFails(ScoreStep(g), sc, scores, Unnamed);
  }

  /** A game's row: the sport and time are the service's own, the status is
      `Completed` for a completed game and otherwise the service's status,
      `Scheduled` when it has none; each score is that of the last entry of
      its team, empty when there is none. The row cannot be made exactly
      when the game has an entry without `name`. */
  lemma GameRowFields(g: ApiGame)
    ensures GameRow(g).Err? <==> g.scores.Some? && exists s :: s in g.scores.value && Unnamed(s)
    ensures GameRow(g).Ok? ==> var x := GameRow(g).value;
      && x.sport == g.sportTitle && x.eventTime == g.commenceTime
      && x.home == g.home && x.away == g.away && x.gameId == g.id
      && (g.completed ==> x.status == "Completed")
      && (!g.completed && g.status.Present? ==> x.status == g.status.value)
      && (!g.completed && g.status.Null? ==> x.status == "")
      && (!g.completed && g.status.Absent? ==> x.status == "Scheduled")
      && x.homeScore == (if g.scores.Some? && Last(g.scores.value, HomeEntry(g)).Some?
                         then ScoreText(Last(g.scores.value, HomeEntry(g)).value) else "")
      && x.awayScore == (if g.scores.Some? && Last(g.scores.value, AwayEntry(g)).Some?
                         then ScoreText(Last(g.scores.value, AwayEntry(g)).value) else "")
  {
    if g.scores.Some? && g.scores.value != [] {
      ScoresFail(g, ("", ""), g.scores.value);
      if GameScores(g).Ok? {
        ScoresLast(g, ("", ""), g.scores.value);
      }
    }
  }

  /** `x` is the row of the followed game at `i`, and no game before it
      breaks the sport. */
  predicate RowBefore(teams: set<string>, games: seq<ApiGame>, i: int, x: ResultRow) {
    && 0 <= i < |games| && Followed(teams, games[i]) && GameRow(games[i]) == Ok(x)
    && forall j :: 0 <= j < i ==> !Breaks(teams, games[j])
  }

  lemma RowBeforeShift(teams: set<string>, games: seq<ApiGame>, i: int, x: ResultRow)
    requires 0 < i <= |games|
    ensures RowBefore(teams, games, i, x) <==>
      !Breaks(teams, games[0]) && RowBefore(teams, games[1..], i - 1, x)
  {
    if i < |games| {
      assert games[1..][i - 1] == games[i];
    }
    assert forall j :: 0 < j < i ==> games[1..][j - 1] == games[j];
  }

  /** A row is written for a sport exactly when it is the row of a followed
      game that comes before every game that breaks the sport. */
  lemma {:induction false} WrittenMember(teams: set<string>, games: seq<ApiGame>, x: ResultRow)
    ensures x in Written(teams, games) <==> exists i :: RowBefore(teams, games, i, x)
  {
    if games != [] {
      var rest := games[1..];
      WrittenMember(teams, rest, x);
      if Followed(teams, games[0]) && GameRow(games[0]) == Ok(x) {
        assert RowBefore(teams, games, 0, x);
      }
      if exists i :: RowBefore(teams, rest, i, x) {
        var i :| RowBefore(teams, rest, i, x);
        RowBeforeShift(teams, games, i + 1, x);
      }
      if exists i :: RowBefore(teams, games, i, x) {
        var i :| RowBefore(teams, games, i, x);
        if i > 0 {
          RowBeforeShift(teams, games, i, x);
          assert RowBefore(teams, rest, i - 1, x);
        }
      }
    }
  }

  /** The games after one that breaks the sport write nothing: the sport's
      rows are those of the games before it. */
  lemma {:induction false} WrittenStops(teams: set<string>, games: seq<ApiGame>, k: nat)
    requires k < |games| && Breaks(teams, games[k])
    ensures Written(teams, games) == Written(teams, games[..k])
  {
    if k > 0 {
      assert games[1..][k - 1] == games[k];
      WrittenStops(teams, games[1..], k - 1);
      assert games[1..][..k - 1] == games[..k][1..];
    }
  }

  /** When no game breaks the sport, every followed game gets exactly one
      row. */
  lemma {:induction false} WrittenCount(teams: set<string>, games: seq<ApiGame>)
    requires forall g :: g in games ==> !Breaks(teams, g)
    ensures |Written(teams, games)| == Count(games, FollowedBy(teams))
  {
    if games != [] {
      assert forall g :: g in games[1..] ==> g in games;
      assert !Breaks(teams, games[0]);
      WrittenCount(teams, games[1..]);
    }
  }

  /** The rows of a run of sports are the rows of its sports. */
  lemma {:induction false} SportsWrittenMember(todayGames: seq<OddsRecord>, keys: map<string, string>, fetch: Fetch,
                                               sports: seq<string>, x: ResultRow)
    ensures x in SportsWritten(todayGames, keys, fetch, sports) <==>
      exists sport :: sport in sports && x in SportWritten(todayGames, keys, fetch, sport)
  {
    if sports != [] {
      SportsWrittenMember(todayGames, keys, fetch, sports[1..], x);
      assert forall s :: s in sports <==> s == sports[0] || s in sports[1..];
    }
  }

  /** Everything written comes from a sport of today's list that has a
      service key and a response, and is a row of that sport. */
  lemma AllWrittenMember(todayGames: seq<OddsRecord>, keys: map<string, string>, fetch: Fetch, x: ResultRow)
    ensures x in AllWritten(todayGames, keys, fetch) <==>
      exists sport :: sport in Map(todayGames, OddsSport) && sport in keys && fetch(keys[sport]).Some? &&
        x in Written(Teams(todayGames, sport), fetch(keys[sport]).value)
  {
    SportsWrittenMember(todayGames, keys, fetch, UniqueSports(todayGames), x);
  }
}
