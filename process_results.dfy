/** `process_results` (`scripts/results.py`): for every sport of the day's
    odds file that has a key of the odds service, the finished and running
    games the service reports are matched against the odds file by (Home
    Team, Away Team); each matched game becomes one results row, with its
    scores when it is completed. */
module ProcessResults {
  import opened Wrappers
  import opened Seqs
  import opened Records
  import opened ScoresApi

  /** A row of `data/game_results_<date>.csv`; a score is `None` until the
      score loop sets it. */
  datatype ResultRow = ResultRow(sport: string, matchDate: string, home: string, away: string,
                                 homeScore: Option<string>, awayScore: Option<string>,
                                 status: string, gameId: string)

  /** The `KeyError`s of the score loop: an entry without `name`, or an
      entry of one of the two teams without `score`. Either ends the whole
      run in the `except` branch. */
  datatype ScoreError = MissingName | MissingScore

  // ---------------------------------------------------------------------
  // One game

  /** The row of a matched game before its scores are read. */
  function NewRow(sport: string, today: string, g: ApiGame): ResultRow {
    ResultRow(sport, today, g.home, g.away, None, None, if g.completed then "Completed" else "Unknown", g.id)
  }

  /** One turn of the score loop: the home team's entry sets the home score,
      otherwise the away team's entry sets the away score. A `null` name
      equals neither team, so its entry is passed over; a `null` score sets
      the score back to `None`. */
  function ApplyScore(g: ApiGame, r: ResultRow, s: ApiScore): Result<ResultRow, ScoreError> {
    if s.name.Absent? then Err(MissingName)
    else if s.name == Present(g.home) then
      if s.score.Absent? then Err(MissingScore) else Ok(r.(homeScore := Value(s.score)))
    else if s.name == Present(g.away) then
      if s.score.Absent? then Err(MissingScore) else Ok(r.(awayScore := Value(s.score)))
    else Ok(r)
  }

  function ScoreStep(g: ApiGame): (ResultRow, ApiScore) -> Result<ResultRow, ScoreError> {
    (r, s) => ApplyScore(g, r, s)
  }

  /** An entry the score loop stops at. */
  function BadEntry(g: ApiGame): ApiScore -> bool {
    (s: ApiScore) => s.name.Absent? || ((s.name == Present(g.home) || s.name == Present(g.away)) && s.score.Absent?)
  }

  /** `match.get('completed') and match.get('scores')`: the scores are read
      only for a completed game with a non-empty list. */
  predicate HasScores(g: ApiGame) {
    g.completed && g.scores.Some? && g.scores.value != []
  }

  /** The row of a matched game. */
  function MatchRow(sport: string, today: string, g: ApiGame): Result<ResultRow, ScoreError> {
    if HasScores(g) then Fold(ScoreStep(g), NewRow(sport, today, g), g.scores.value)
    else Ok(NewRow(sport, today, g))
  }

  /** The `any(...)` test: some odds row of the sport has the game's two
      teams, in the same roles. */
  predicate InOdds(sportGames: seq<OddsRecord>, g: ApiGame) {
    exists o :: o in sportGames && o.home == g.home && o.away == g.away
  }

  function InOddsOf(sportGames: seq<OddsRecord>): ApiGame -> bool {
    g => InOdds(sportGames, g)
  }

  /** The rows one game of the service adds: one when it is in the odds
      file, none otherwise. */
  function MatchRows(sport: string, today: string, sportGames: seq<OddsRecord>, g: ApiGame): Result<seq<ResultRow>, ScoreError> {
    if InOdds(sportGames, g) then
      var r :- MatchRow(sport, today, g);
      Ok([r])
    else Ok([])
  }

  function MatchRowsOf(sport: string, today: string, sportGames: seq<OddsRecord>): ApiGame -> Result<seq<ResultRow>, ScoreError> {
    g => MatchRows(sport, today, sportGames, g)
  }

  /** The rows of one sport: the games of the service in the order it sent
      them. */
  function SportRows(sport: string, today: string, sportGames: seq<OddsRecord>, api: seq<ApiGame>): Result<seq<ResultRow>, ScoreError> {
    Concat(MatchRowsOf(sport, today, sportGames), api)
  }

  // ---------------------------------------------------------------------
  // The run over the sports of the odds file

  function OddsSport(o: OddsRecord): string {
    o.sport
  }

  /** The rows of one sport of the odds file: none when it has no service
      key (a missing or empty entry of `sport_key_map`), when the request
      fails or when the service sends no game. */
  function SportResults(odds: seq<OddsRecord>, keys: map<string, string>, fetch: Fetch, today: string, sport: string): Result<seq<ResultRow>, ScoreError> {
    if sport !in keys || keys[sport] == "" then Ok([])
    else
      match fetch(keys[sport])
      case None => Ok([])
      case Some(api) =>
        if api == [] then Ok([])
        else SportRows(sport, today, Select(odds, OddsSport, sport), api)
  }

  function SportResultsOf(odds: seq<OddsRecord>, keys: map<string, string>, fetch: Fetch, today: string): string -> Result<seq<ResultRow>, ScoreError> {
    sport => SportResults(odds, keys, fetch, today, sport)
  }

  /** The sports of the odds file, each once, in order of first appearance
      (`odds_df['Sport'].unique()`). */
  function ActiveSports(odds: seq<OddsRecord>): seq<string> {
    Distinct(Map(odds, OddsSport))
  }

  /** All rows, sport after sport. */
  function AllResults(odds: seq<OddsRecord>, keys: map<string, string>, fetch: Fetch, today: string): Result<seq<ResultRow>, ScoreError> {
    Concat(SportResultsOf(odds, keys, fetch, today), ActiveSports(odds))
  }

  /** What `process_results` ends with: the rows saved (it returns `True`),
      nothing saved because there is no row (it falls off its end and
      returns `None`), or an exception (it returns `False`). */
  datatype Outcome = Saved(rows: seq<ResultRow>) | NoResults | Failed(error: ScoreError)

  function Processed(odds: seq<OddsRecord>, keys: map<string, string>, fetch: Fetch, today: string): Outcome {
    match AllResults(odds, keys, fetch, today)
    case Err(e) => Failed(e)
    case Ok(rows) => if rows == [] then NoResults else Saved(rows)
  }

  // ---------------------------------------------------------------------
  // The script

  /** `process_results()` on the odds file it reads, its sport key map, the
      request to the service and today's date text (`%Y-%m-%d`). */
  method ProcessResultsOf(odds: seq<OddsRecord>, keys: map<string, string>, fetch: Fetch, today: string)
    returns (outcome: Outcome)
    ensures outcome == Processed(odds, keys, fetch, today)
  {
    var results: seq<ResultRow> := [];
    var activeSports := ActiveSports(odds);
    ghost var f := SportResultsOf(odds, keys, fetch, today);
    for i := 0 to |activeSports|
      invariant Concat(f, activeSports[..i]) == Ok(results)
    {
      ConcatStep(f, activeSports, i, results);
      var sport := activeSports[i];
      if sport in keys && keys[sport] != "" {
        var apiResults := fetch(keys[sport]);
        if apiResults.Some? && apiResults.value != [] {
          var sportGames := Select(odds, OddsSport, sport);
          var rows := SportMatches(sport, today, sportGames, apiResults.value);
          if rows.Err? {
            ConcatErrPrefix(f, activeSports, i + 1);
            return Failed(rows.error);
          }
          results := results + rows.value;
        } else {
          assert f(sport) == Ok([]);
          assert results + [] == results;
        }
      } else {
        assert results + [] == results;
      }
    }
    TakeAll(activeSports);
    if results != [] {
      return Saved(results);
    }
    return NoResults;
  }

  /** The loop over the games the service sent for one sport. */
  method SportMatches(sport: string, today: string, sportGames: seq<OddsRecord>, api: seq<ApiGame>)
    returns (r: Result<seq<ResultRow>, ScoreError>)
    ensures r == SportRows(sport, today, sportGames, api)
  {
    var rows: seq<ResultRow> := [];
    ghost var f := MatchRowsOf(sport, today, sportGames);
    for j := 0 to |api|
      invariant Concat(f, api[..j]) == Ok(rows)
    {
      ConcatStep(f, api, j, rows);
      var game := api[j];
      if InOdds(sportGames, game) {
        var result := MatchResult(sport, today, game);
        if result.Err? {
          ConcatErrPrefix(f, api, j + 1);
          return Err(result.error);
        }
        rows := rows + [result.value];
      } else {
        assert rows + [] == rows;
      }
    }
    TakeAll(api);
    return Ok(rows);
  }

  /** The row of one matched game: the score loop updates it in place. */
  method MatchResult(sport: string, today: string, g: ApiGame) returns (r: Result<ResultRow, ScoreError>)
    ensures r == MatchRow(sport, today, g)
  {
    var result := NewRow(sport, today, g);
    if g.completed && g.scores.Some? && g.scores.value != [] {
      var scores := g.scores.value;
      ghost var step := ScoreStep(g);
      ghost var init := result;
      for k := 0 to |scores|
        invariant Fold(step, init, scores[..k]) == Ok(result)
      {
        FoldStep(step, init, scores, k, result);
        var score := scores[k];
        if score.name.Absent? {
          FoldErrPrefix(step, init, scores, k + 1);
          return Err(MissingName);
        }
        if score.name == Present(g.home) {
          if score.score.Absent? {
            FoldErrPrefix(step, init, scores, k + 1);
            return Err(MissingScore);
          }
          result := result.(homeScore := Value(score.score));
        } else if score.name == Present(g.away) {
          if score.score.Absent? {
            FoldErrPrefix(step, init, scores, k + 1);
            return Err(MissingScore);
          }
          result := result.(awayScore := Value(score.score));
        }
      }
      TakeAll(scores);
    }
    return Ok(result);
  }

  // ---------------------------------------------------------------------
  // Properties

  /** The score loop leaves every column but the scores alone, and each
      score is the one of the last entry of its team, or stays as it was
      when no entry names that team. */
  lemma {:induction false} ScoresLast(g: ApiGame, r: ResultRow, scores: seq<ApiScore>)
    requires Fold(ScoreStep(g), r, scores).Ok?
    ensures Fold(ScoreStep(g), r, scores).value ==
      r.(homeScore := match Last(scores, HomeEntry(g)) case Some(s) => Value(s.score) case None => r.homeScore,
         awayScore := match Last(scores, AwayEntry(g)) case Some(s) => Value(s.score) case None => r.awayScore)
  {
    if scores != [] {
      var p, last := scores[..|scores| - 1], scores[|scores| - 1];
      assert p == scores[..|scores| - 1];
      assert Fold(ScoreStep(g), r, p).Ok?;
      ScoresLast(g, r, p);
    }
  }

  /** The score loop fails exactly when an entry has no `name`, or names one
      of the teams and has no `score`. */
  lemma ScoresFail(g: ApiGame, r: ResultRow, scores: seq<ApiScore>)
    ensures Fold(ScoreStep(g), r, scores).Err? <==> exists s :: s in scores && BadEntry(g)(s)
  {
    FoldFails(ScoreStep(g), r, scores, BadEntry(g));
  }

  /** A matched game's row: the sport is the odds file's own name for it,
      the date is today's, the status is `Completed` exactly for a completed
      game and `Unknown` otherwise, and the scores are those of the last
      entry of each team, read only for a completed game with scores. */
  lemma MatchRowFields(sport: string, today: string, g: ApiGame)
    requires MatchRow(sport, today, g).Ok?
    ensures var x := MatchRow(sport, today, g).value;
      && x.sport == sport && x.matchDate == today
      && x.home == g.home && x.away == g.away && x.gameId == g.id
      && (x.status == "Completed" <==> g.completed)
      && (x.status == "Unknown" <==> !g.completed)
      && x.homeScore == (if HasScores(g) && Last(g.scores.value, HomeEntry(g)).Some?
                         then Value(Last(g.scores.value, HomeEntry(g)).value.score) else None)
      && x.awayScore == (if HasScores(g) && Last(g.scores.value, AwayEntry(g)).Some?
                         then Value(Last(g.scores.value, AwayEntry(g)).value.score) else None)
  {
    if HasScores(g) {
      ScoresLast(g, NewRow(sport, today, g), g.scores.value);
    }
  }

  /** A matched game fails the run exactly when its scores are read and one
      of its entries is bad. */
  lemma MatchRowFails(sport: string, today: string, g: ApiGame)
    ensures MatchRow(sport, today, g).Err? <==>
      HasScores(g) && exists s :: s in g.scores.value && BadEntry(g)(s)
  {
    if HasScores(g) {
      ScoresFail(g, NewRow(sport, today, g), g.scores.value);
    }
  }

  /** One row per game of the service that is in the odds file, however
      many bookmakers' rows the odds file has for it. */
  lemma SportRowsCount(sport: string, today: string, sportGames: seq<OddsRecord>, api: seq<ApiGame>)
    requires SportRows(sport, today, sportGames, api).Ok?
    ensures |SportRows(sport, today, sportGames, api).value| == Count(api, InOddsOf(sportGames))
  {
    var f := MatchRowsOf(sport, today, sportGames);
    ConcatFails(f, api);
    ConcatCount(f, api, InOddsOf(sportGames));
  }

  /** A game of the service, paired with the sport of the odds file it was
      requested for. */
  predicate Reported(odds: seq<OddsRecord>, keys: map<string, string>, fetch: Fetch, p: (string, ApiGame)) {
    && p.0 in Map(odds, OddsSport)
    && p.0 in keys && keys[p.0] != ""
    && fetch(keys[p.0]).Some? && p.1 in fetch(keys[p.0]).value
  }

  /** Some odds row of that sport has the game's teams. */
  predicate Listed(odds: seq<OddsRecord>, p: (string, ApiGame)) {
    exists o :: o in odds && o.sport == p.0 && o.home == p.1.home && o.away == p.1.away
  }

  lemma ListedInOdds(odds: seq<OddsRecord>, p: (string, ApiGame))
    ensures Listed(odds, p) <==> InOdds(Select(odds, OddsSport, p.0), p.1)
  {
  }

  /** The rows of one sport are those of its games that the odds rows of
      the sport list. */
  lemma SportRowsMember(sport: string, today: string, sportGames: seq<OddsRecord>, api: seq<ApiGame>, x: ResultRow)
    requires SportRows(sport, today, sportGames, api).Ok?
    ensures x in SportRows(sport, today, sportGames, api).value <==>
      exists g :: g in api && InOdds(sportGames, g) && MatchRow(sport, today, g) == Ok(x)
  {
    ConcatMember(MatchRowsOf(sport, today, sportGames), api, x);
  }

  /** The rows one sport contributes are those of its reported games that
      the odds file lists. */
  lemma SportResultsMember(odds: seq<OddsRecord>, keys: map<string, string>, fetch: Fetch, today: string,
                           sport: string, x: ResultRow)
    requires sport in Map(odds, OddsSport)
    requires SportResults(odds, keys, fetch, today, sport).Ok?
    ensures x in SportResults(odds, keys, fetch, today, sport).value <==>
      exists g :: Reported(odds, keys, fetch, (sport, g)) && Listed(odds, (sport, g)) && MatchRow(sport, today, g) == Ok(x)
  {
    if sport in keys && keys[sport] != "" && fetch(keys[sport]).Some? {
      var api := fetch(keys[sport]).value;
      var sportGames := Select(odds, OddsSport, sport);
      if api != [] {
        SportRowsMember(sport, today, sportGames, api, x);
        forall g ensures Listed(odds, (sport, g)) <==> InOdds(sportGames, g) {
          ListedInOdds(odds, (sport, g));
        }
      }
    }
  }

  /** The run fails exactly when a reported game that the odds file lists
      has a bad score entry. */
  lemma ProcessedFails(odds: seq<OddsRecord>, keys: map<string, string>, fetch: Fetch, today: string)
    ensures Processed(odds, keys, fetch, today).Failed? <==>
      exists p :: Reported(odds, keys, fetch, p) && Listed(odds, p) && MatchRow(p.0, today, p.1).Err?
  {
    var f := SportResultsOf(odds, keys, fetch, today);
    var sports := ActiveSports(odds);
    ConcatFails(f, sports);
    forall sport | sport in sports
      ensures f(sport).Err? <==>
        exists g :: Reported(odds, keys, fetch, (sport, g)) && Listed(odds, (sport, g)) && MatchRow(sport, today, g).Err?
    {
      if sport in keys && keys[sport] != "" && fetch(keys[sport]).Some? {
        var api := fetch(keys[sport]).value;
        var sportGames := Select(odds, OddsSport, sport);
        var h := MatchRowsOf(sport, today, sportGames);
        ConcatFails(h, api);
        forall g ensures Listed(odds, (sport, g)) <==> InOdds(sportGames, g) {
          ListedInOdds(odds, (sport, g));
        }
      }
    }
  }

  /** When the run does not fail, the saved rows are exactly the rows of the
      reported games that the odds file lists; nothing is saved exactly when
      there is no such game. */
  lemma ProcessedMember(odds: seq<OddsRecord>, keys: map<string, string>, fetch: Fetch, today: string, x: ResultRow)
    requires !Processed(odds, keys, fetch, today).Failed?
    ensures Processed(odds, keys, fetch, today).Saved? && x in Processed(odds, keys, fetch, today).rows <==>
      exists p :: Reported(odds, keys, fetch, p) && Listed(odds, p) && MatchRow(p.0, today, p.1) == Ok(x)
  {
    var f := SportResultsOf(odds, keys, fetch, today);
    var sports := ActiveSports(odds);
    ConcatMember(f, sports, x);
    ConcatFails(f, sports);
    forall sport | sport in sports
      ensures x in f(sport).value <==>
        exists g :: Reported(odds, keys, fetch, (sport, g)) && Listed(odds, (sport, g)) && MatchRow(sport, today, g) == Ok(x)
    {
      SportResultsMember(odds, keys, fetch, today, sport, x);
    }
    if exists p :: Reported(odds, keys, fetch, p) && Listed(odds, p) && MatchRow(p.0, today, p.1) == Ok(x) {
      var p :| Reported(odds, keys, fetch, p) && Listed(odds, p) && MatchRow(p.0, today, p.1) == Ok(x);
      assert p.0 in sports;
    }
  }

  /** Nothing is saved exactly when no reported game is listed in the odds
      file (and none fails the run). */
  lemma ProcessedNothing(odds: seq<OddsRecord>, keys: map<string, string>, fetch: Fetch, today: string)
    ensures Processed(odds, keys, fetch, today).NoResults? <==>
      !Processed(odds, keys, fetch, today).Failed? &&
      forall p :: Reported(odds, keys, fetch, p) ==> !Listed(odds, p)
  {
    var out := Processed(odds, keys, fetch, today);
    if !out.Failed? {
      if out.Saved? {
        ProcessedMember(odds, keys, fetch, today, out.rows[0]);
      } else {
        forall p | Reported(odds, keys, fetch, p) ensures !Listed(odds, p) {
          if Listed(odds, p) {
            ProcessedFails(odds, keys, fetch, today);
            var x := MatchRow(p.0, today, p.1).value;
            ProcessedMember(odds, keys, fetch, today, x);
          }
        }
      }
    }
  }
}
