/** `sync_yesterdays_data` (`scripts/yesterdays_sync.py`): yesterday's
    results are joined to yesterday's odds on normalised keys, and each
    joined row gets the verdict of `determine_winner`: did the favourite or
    the underdog win, or was it a draw. */
module YesterdaysSync {
  import opened Wrappers
  import opened Text
  import opened Seqs
  import opened Merge
  import opened Records

  // ---------------------------------------------------------------------
  // Key normalisation (the loop over the three merge columns)

  /** The odds row with its first `n` merge columns (Sport, Home Team, Away
      Team, in that order) normalised. */
  function OddsKeysUpTo(o: OddsRecord, n: nat): OddsRecord {
    o.(sport := if n > 0 then Normalize(o.sport) else o.sport,
       home := if n > 1 then Normalize(o.home) else o.home,
       away := if n > 2 then Normalize(o.away) else o.away)
  }

  function ResultKeysUpTo(r: ResultRecord, n: nat): ResultRecord {
    r.(sport := if n > 0 then Normalize(r.sport) else r.sport,
       home := if n > 1 then Normalize(r.home) else r.home,
       away := if n > 2 then Normalize(r.away) else r.away)
  }

  /** Column `c` of the odds table rewritten with `.astype(str).str.strip().str.lower()`. */
  function NormalizeOddsColumn(odds: seq<OddsRecord>, c: nat): (r: seq<OddsRecord>)
    ensures |r| == |odds|
  {
    seq(|odds|, i requires 0 <= i < |odds| =>
      var o := odds[i];
      if c == 0 then o.(sport := Normalize(o.sport))
      else if c == 1 then o.(home := Normalize(o.home))
      else if c == 2 then o.(away := Normalize(o.away))
      else o)
  }

  function NormalizeResultColumn(results: seq<ResultRecord>, c: nat): (r: seq<ResultRecord>)
    ensures |r| == |results|
  {
    seq(|results|, i requires 0 <= i < |results| =>
      var x := results[i];
      if c == 0 then x.(sport := Normalize(x.sport))
      else if c == 1 then x.(home := Normalize(x.home))
      else if c == 2 then x.(away := Normalize(x.away))
      else x)
  }

  /** Lines 36-39: each merge column of both tables, one after the other,
      becomes stripped and lower-cased. */
  method NormalizeKeys(odds0: seq<OddsRecord>, results0: seq<ResultRecord>)
    returns (odds: seq<OddsRecord>, results: seq<ResultRecord>)
    ensures |odds| == |odds0| && forall i :: 0 <= i < |odds| ==> odds[i] == OddsKeysUpTo(odds0[i], 3)
    ensures |results| == |results0| && forall i :: 0 <= i < |results| ==> results[i] == ResultKeysUpTo(results0[i], 3)
  {
    odds, results := odds0, results0;
    for col := 0 to 3
      invariant |odds| == |odds0| && forall i :: 0 <= i < |odds| ==> odds[i] == OddsKeysUpTo(odds0[i], col)
      invariant |results| == |results0| && forall i :: 0 <= i < |results| ==> results[i] == ResultKeysUpTo(results0[i], col)
    {
      odds := NormalizeOddsColumn(odds, col);
      results := NormalizeResultColumn(results, col);
    }
  }

  /** Normalising is idempotent: a row whose keys are normalised already is
      left as it is, so running the script on its own output joins the same
      way. */
  lemma NormalizedKeysStay(o: OddsRecord, r: ResultRecord)
    ensures OddsKeysUpTo(OddsKeysUpTo(o, 3), 3) == OddsKeysUpTo(o, 3)
    ensures ResultKeysUpTo(ResultKeysUpTo(r, 3), 3) == ResultKeysUpTo(r, 3)
  {
    NormalizeIdempotent(o.sport);
    NormalizeIdempotent(o.home);
    NormalizeIdempotent(o.away);
    NormalizeIdempotent(r.sport);
    NormalizeIdempotent(r.home);
    NormalizeIdempotent(r.away);
  }

  // ---------------------------------------------------------------------
  // determine_winner

  datatype Verdict = Underdog | Favorite | Draw

  /** `determine_winner(row)`: `None` when a score is missing; otherwise who
      won, read against the prices (the higher decimal price is the
      underdog, equal prices make the winner the favourite). */
  function DetermineWinner(homeScore: Option<int>, awayScore: Option<int>, homeOdds: real, awayOdds: real): Option<Verdict> {
    if homeScore.None? || awayScore.None? then None
    else if homeScore.value > awayScore.value then Some(if homeOdds > awayOdds then Underdog else Favorite)
    else if awayScore.value > homeScore.value then Some(if awayOdds > homeOdds then Underdog else Favorite)
    else Some(Draw)
  }

  /** The verdict is about the winner, not about which side was at home:
      swapping the sides (scores and prices together) leaves it unchanged. */
  lemma WinnerSideBlind(homeScore: Option<int>, awayScore: Option<int>, homeOdds: real, awayOdds: real)
    ensures DetermineWinner(homeScore, awayScore, homeOdds, awayOdds) == DetermineWinner(awayScore, homeScore, awayOdds, homeOdds)
  {
  }

  /** The cases of the verdict: missing, draw, and the winner's price
      against the loser's. */
  lemma WinnerCases(homeScore: Option<int>, awayScore: Option<int>, homeOdds: real, awayOdds: real)
    ensures DetermineWinner(homeScore, awayScore, homeOdds, awayOdds).None? <==> homeScore.None? || awayScore.None?
    ensures homeScore.Some? && awayScore.Some? ==>
      var w := DetermineWinner(homeScore, awayScore, homeOdds, awayOdds).value;
      var h, a := homeScore.value, awayScore.value;
      && (w == Draw <==> h == a)
      && (w == Underdog <==> (h > a && homeOdds > awayOdds) || (a > h && awayOdds > homeOdds))
      && (homeOdds == awayOdds && h != a ==> w == Favorite)
  {
  }

  // ---------------------------------------------------------------------
  // The sync

  /** A results row after line 42-43: scores read as numbers. */
  datatype ScoredResult = ScoredResult(sport: string, matchDate: string, home: string, away: string,
                                       homeScore: Option<int>, awayScore: Option<int>, status: string, gameId: string)

  function Scored(r: ResultRecord): ScoredResult {
    ScoredResult(r.sport, r.matchDate, r.home, r.away, ReadScore(r.homeScore), ReadScore(r.awayScore), r.status, r.gameId)
  }

  function ScoredKey(r: ScoredResult): GameKey {
    GameKey(r.sport, r.home, r.away)
  }

  /** A row of the output file: the results columns, the odds columns taken
      from the odds file, and the verdict. The odds record is kept whole,
      but the file holds only its prices, bookmaker and `Compiled_At`: its
      key columns are the join key, which the results row already holds,
      and its `matchDate` is not selected, so it is not written. */
  datatype SyncedRow = SyncedRow(result: ScoredResult, odds: OddsRecord, winner: Option<Verdict>)

  function WithWinner(p: (ScoredResult, OddsRecord)): SyncedRow {
    SyncedRow(p.0, p.1, DetermineWinner(p.0.homeScore, p.0.awayScore, p.1.homeOdds, p.1.awayOdds))
  }

  /** The rows of the sync on tables whose keys are normalised: the inner
      join, each row with its verdict; `None` (the script returns `False`
      and writes nothing) when the join is empty. */
  function SyncRows(odds: seq<OddsRecord>, results: seq<ResultRecord>): Option<seq<SyncedRow>> {
    var merged := Inner(Map(results, Scored), odds, ScoredKey, OddsKey);
    if |merged| == 0 then None else Some(Map(merged, WithWinner))
  }

  /** The script on the two tables it reads. */
  method SyncYesterdaysData(odds0: seq<OddsRecord>, results0: seq<ResultRecord>) returns (r: Option<seq<SyncedRow>>)
    ensures r == SyncRows(Map(odds0, o => OddsKeysUpTo(o, 3)), Map(results0, x => ResultKeysUpTo(x, 3)))
  {
    var odds, results := NormalizeKeys(odds0, results0);
    assert odds == Map(odds0, o => OddsKeysUpTo(o, 3));
    assert results == Map(results0, x => ResultKeysUpTo(x, 3));
    var scored := Map(results, Scored);
    var merged := Inner(scored, odds, ScoredKey, OddsKey);
    if |merged| == 0 {
      return None;
    }
    return Some(Map(merged, WithWinner));
  }

  /** Every output row pairs a results row with an odds row of the same
      key, and every such pair is in the output, with its verdict. */
  lemma SyncRowsMember(odds: seq<OddsRecord>, results: seq<ResultRecord>, x: SyncedRow)
    requires SyncRows(odds, results).Some?
    ensures x in SyncRows(odds, results).value <==>
      && (exists r :: r in results && Scored(r) == x.result)
      && x.odds in odds
      && ScoredKey(x.result) == OddsKey(x.odds)
      && x.winner == DetermineWinner(x.result.homeScore, x.result.awayScore, x.odds.homeOdds, x.odds.awayOdds)
  {
    var scored := Map(results, Scored);
    var merged := Inner(scored, odds, ScoredKey, OddsKey);
    var p := (x.result, x.odds);
    MapMember(merged, WithWinner, x);
    InnerMember(scored, odds, ScoredKey, OddsKey, p);
    MapMember(results, Scored, x.result);
    assert forall q :: WithWinner(q) == x <==> q == p && x.winner == WithWinner(p).winner;
  }

  /** The sync fails (returns `False`) exactly when no results row shares
      its key with an odds row; otherwise it has one row per matching pair. */
  lemma SyncRowsEmpty(odds: seq<OddsRecord>, results: seq<ResultRecord>)
    ensures SyncRows(odds, results).None? <==>
      forall r, o :: r in results && o in odds ==> ResultKey(r) != OddsKey(o)
    ensures SyncRows(odds, results).Some? ==>
      |SyncRows(odds, results).value| == MatchTotal(Map(results, Scored), odds, ScoredKey, OddsKey)
  {
    var scored := Map(results, Scored);
    var merged := Inner(scored, odds, ScoredKey, OddsKey);
    InnerSize(scored, odds, ScoredKey, OddsKey);
    if |merged| > 0 {
      var p := merged[0];
      InnerMember(scored, odds, ScoredKey, OddsKey, p);
      MapMember(results, Scored, p.0);
      var r :| r in results && Scored(r) == p.0;
      assert ResultKey(r) == OddsKey(p.1);
    } else {
      forall r, o | r in results && o in odds ensures ResultKey(r) != OddsKey(o) {
        MapMember(results, Scored, Scored(r));
        InnerMember(scored, odds, ScoredKey, OddsKey, (Scored(r), o));
      }
    }
  }
}
