/** `sync_data` (`scripts/sync.py`): the day's results and odds are joined on
    (Sport, Home Team, Away Team) with an outer merge, rows without prices are
    dropped, and for every bookmaker with at least one completed game the
    script reports how often its favourite and its underdog won. */
module SyncStats {
  import opened Wrappers
  import opened Seqs
  import opened Merge
  import opened Records

  /** A row of the merged table: the results columns (missing for a game
      only the odds file has) and the odds columns, which `dropna` made
      sure are present. */
  type MergedRow = (Option<ResultRecord>, OddsRecord)

  /** Lines 25-34: the outer merge of results with odds, without the rows
      that have no prices. */
  function MergedTable(results: seq<ResultRecord>, odds: seq<OddsRecord>): seq<MergedRow> {
    DropMissingRight(Outer(results, odds, ResultKey, OddsKey))
  }

  function RowBookmaker(p: MergedRow): string {
    p.1.bookmaker
  }

  /** The side named in the `Favorite` and `Winner` columns. */
  datatype Side = Home | Away | Draw

  /** The favourite has the lower decimal price; equal prices make the away
      side the favourite. */
  function Favorite(p: MergedRow): Side {
    if p.1.homeOdds < p.1.awayOdds then Home else Away
  }

  /** The side with more points; a missing score (a game only the odds file
      has, or an empty score cell, which `read_csv` makes `NaN`) compares
      false either way, which makes the row a `Draw`. Score cells holding
      other text are outside the model. */
  function Winner(p: MergedRow): Side {
    var home := if p.0.Some? then ReadScore(p.0.value.homeScore) else None;
    var away := if p.0.Some? then ReadScore(p.0.value.awayScore) else None;
    if home.Some? && away.Some? && home.value > away.value then Home
    else if home.Some? && away.Some? && away.value > home.value then Away
    else Draw
  }

  predicate IsCompleted(p: MergedRow) {
    p.0.Some? && p.0.value.status == "Completed"
  }

  predicate IsUnknown(p: MergedRow) {
    p.0.Some? && p.0.value.status == "Unknown"
  }

  predicate FavoriteWon(p: MergedRow) {
    IsCompleted(p) && Favorite(p) == Winner(p)
  }

  /** A completed game the favourite did not win, a draw included. */
  predicate UnderdogWon(p: MergedRow) {
    IsCompleted(p) && Favorite(p) != Winner(p)
  }

  /** A row of the stats table. The percentages are exact; the script rounds
      them to two decimals. */
  datatype BookmakerStats = BookmakerStats(bookmaker: string, underdogWins: int, underdogPct: real,
                                           favoriteWins: int, favoritePct: real, unknownGames: nat)

  /** The mask of line 40: the rows of one bookmaker. `unique()` lists a
      `NaN` bookmaker too, and that selects no row. */
  function BookmakerDf(merged: seq<MergedRow>, b: string): seq<MergedRow> {
    if NullCell(b) then [] else Select(merged, RowBookmaker, b)
  }

  /** The stats of one bookmaker, from its rows of the merged table; none
      when it has no completed game. */
  function StatsOf(merged: seq<MergedRow>, b: string): Option<BookmakerStats> {
    var rows := BookmakerDf(merged, b);
    var completed := Count(rows, IsCompleted);
    if completed > 0 then
      var favorite := Count(rows, FavoriteWon);
      var underdog := completed - favorite;
      Some(BookmakerStats(b, underdog, underdog as real / completed as real * 100.0,
                          favorite, favorite as real / completed as real * 100.0,
                          Count(rows, IsUnknown)))
    else None
  }

  function StatsRows(merged: seq<MergedRow>, b: string): (r: seq<BookmakerStats>)
    ensures |r| <= 1
  {
    match StatsOf(merged, b)
    case Some(s) => [s]
    case None => []
  }

  /** One step of the loop over bookmakers; it never fails. */
  function StatsRowsOf(merged: seq<MergedRow>): string -> Result<seq<BookmakerStats>, ()> {
    b => Ok(StatsRows(merged, b))
  }

  /** The bookmakers of the merged table, each once, in order of first
      appearance (`merged_df['Bookmaker'].unique()`). */
  function UniqueBookmakers(merged: seq<MergedRow>): seq<string> {
    Distinct(Map(merged, RowBookmaker))
  }

  /** The stats table: the rows of the bookmakers, one after the other. */
  function Performance(merged: seq<MergedRow>): seq<BookmakerStats> {
    var f := StatsRowsOf(merged);
    ConcatFails(f, UniqueBookmakers(merged));
    Concat(f, UniqueBookmakers(merged)).value
  }

  /** The script on the two tables it reads: the merged table it writes
      below the stats table, and the stats table. */
  method SyncData(results: seq<ResultRecord>, odds: seq<OddsRecord>)
    returns (merged: seq<MergedRow>, bookmakerStats: seq<BookmakerStats>)
    ensures merged == MergedTable(results, odds)
    ensures bookmakerStats == Performance(merged)
  {
    merged := DropMissingRight(Outer(results, odds, ResultKey, OddsKey));
    var bookmakers := UniqueBookmakers(merged);
    ghost var f := StatsRowsOf(merged);
    bookmakerStats := [];
    for i := 0 to |bookmakers|
      invariant Concat(f, bookmakers[..i]) == Ok(bookmakerStats)
    {
      ConcatStep(f, bookmakers, i, bookmakerStats);
      var row := BookmakerRow(merged, bookmakers[i]);
      assert f(bookmakers[i]) == Ok(row);
      bookmakerStats := bookmakerStats + row;
    }
    TakeAll(bookmakers);
  }

  /** The body of the loop: the counts of one bookmaker, appended as a row
      when it has a completed game. */
  method BookmakerRow(merged: seq<MergedRow>, bookmaker: string) returns (r: seq<BookmakerStats>)
    ensures r == StatsRows(merged, bookmaker)
  {
    var bookmakerDf := BookmakerDf(merged, bookmaker);
    var completedGames: int := Count(bookmakerDf, IsCompleted);
    var unknownGames := Count(bookmakerDf, IsUnknown);
    if completedGames > 0 {
      var favoriteWins: int := Count(bookmakerDf, FavoriteWon);
      var underdogWins := completedGames - favoriteWins;
      return [BookmakerStats(bookmaker,
        underdogWins, underdogWins as real / completedGames as real * 100.0,
        favoriteWins, favoriteWins as real / completedGames as real * 100.0,
        unknownGames)];
    }
    return [];
  }

  // ---------------------------------------------------------------------
  // Properties

  /** A bookmaker's row: the bookmaker is not `NaN`; favourite and underdog
      wins are its completed games, the underdog's being every completed
      game the favourite did not win (draws included); the two percentages
      add up to 100 and each lies between 0 and 100; completed and unknown
      games are at most all its games. */
  lemma StatsOfCounts(merged: seq<MergedRow>, b: string)
    requires StatsOf(merged, b).Some?
    ensures var s := StatsOf(merged, b).value;
      var rows := Select(merged, RowBookmaker, b);
      && s.bookmaker == b && !NullCell(b)
      && s.favoriteWins == Count(rows, FavoriteWon)
      && s.underdogWins == Count(rows, UnderdogWon)
      && s.favoriteWins + s.underdogWins == Count(rows, IsCompleted)
      && s.unknownGames == Count(rows, IsUnknown)
      && Count(rows, IsCompleted) + s.unknownGames <= |rows|
      && s.underdogPct + s.favoritePct == 100.0
      && 0.0 <= s.underdogPct <= 100.0
      && 0.0 <= s.favoritePct <= 100.0
  {
    var rows := Select(merged, RowBookmaker, b);
    StatsOfKnown(merged, b);
    var s := StatsOf(merged, b).value;
    CountSplit(rows, IsCompleted, FavoriteWon, UnderdogWon);
    CountExclusive(rows, IsCompleted, IsUnknown);
    var c := Count(rows, IsCompleted) as real;
    var u := s.underdogWins as real;
    var f := s.favoriteWins as real;
    assert u + f == c;
    PercentagesAddUp(u, f, c);
  }

  /** A bookmaker with stats is not `NaN`, so its rows are its own. */
  lemma StatsOfKnown(merged: seq<MergedRow>, b: string)
    requires StatsOf(merged, b).Some?
    ensures !NullCell(b) && BookmakerDf(merged, b) == Select(merged, RowBookmaker, b)
  {
  }

  lemma PercentagesAddUp(u: real, f: real, c: real)
    requires 0.0 <= u && 0.0 <= f && 0.0 < c && u + f == c
    ensures u / c * 100.0 + f / c * 100.0 == 100.0
    ensures 0.0 <= u / c * 100.0 <= 100.0 && 0.0 <= f / c * 100.0 <= 100.0
  {
    assert u / c + f / c == (u + f) / c == 1.0;
  }

  /** A bookmaker gets a row exactly when it is not `NaN` and one of its
      games is completed. */
  lemma StatsOfNone(merged: seq<MergedRow>, b: string)
    ensures StatsOf(merged, b).None? <==>
      NullCell(b) || forall p :: p in merged && RowBookmaker(p) == b ==> !IsCompleted(p)
  {
    var rows := Select(merged, RowBookmaker, b);
    CountPositive(rows, IsCompleted);
  }

  /** The stats table holds exactly the rows of the bookmakers of the
      merged table that have one. */
  lemma PerformanceMember(merged: seq<MergedRow>, s: BookmakerStats)
    ensures s in Performance(merged) <==>
      exists b :: b in Map(merged, RowBookmaker) && StatsOf(merged, b) == Some(s)
  {
    var f := StatsRowsOf(merged);
    var bs := UniqueBookmakers(merged);
    ConcatFails(f, bs);
    ConcatMember(f, bs, s);
    assert forall b :: f(b).Ok? && (s in f(b).value <==> StatsOf(merged, b) == Some(s));
  }

  function StatsBookmaker(s: BookmakerStats): string {
    s.bookmaker
  }

  /** One row per bookmaker at most, in the order in which the bookmakers
      first appear in the merged table. */
  lemma PerformanceOrder(merged: seq<MergedRow>)
    ensures var out := Performance(merged);
      forall i, j :: 0 <= i < j < |out| ==> out[i].bookmaker != out[j].bookmaker
    ensures InFirstAppearanceOrder(Performance(merged), Map(merged, RowBookmaker), StatsBookmaker)
  {
    var f := StatsRowsOf(merged);
    var bs := UniqueBookmakers(merged);
    ConcatFails(f, bs);
    assert forall x, y :: x in bs && f(x).Ok? && y in f(x).value ==> StatsBookmaker(y) == x;
    ConcatSingles(f, bs, StatsBookmaker);
    ConcatFirstAppearanceOrder(f, Map(merged, RowBookmaker), StatsBookmaker);
  }
}
