/** The rows of the CSV files the sync scripts read back: a daily odds file
    written by the odds saver and a results file written by a results
    fetcher. Cells are kept as the text or number they hold; a score cell is
    text, read as a number by `ReadScore`. */
module Records {
  import opened Wrappers
  import opened Text

  /** A row of `data/game_odds_<date>.csv`. */
  datatype OddsRecord = OddsRecord(sport: string, matchDate: string, home: string, away: string,
                                   homeOdds: real, awayOdds: real, bookmaker: string, compiledAt: string)

  /** A row of a results file. The second column is `Match Date` in the
      files of `scripts/results.py` and `Event Time` in those of
      `results.py`. */
  datatype ResultRecord = ResultRecord(sport: string, matchDate: string, home: string, away: string,
                                       homeScore: string, awayScore: string, status: string, gameId: string)

  /** The cell texts `read_csv` reads as a missing value (`NaN`) by
      default. */
  const CsvMissing: set<string> := {"", "#N/A", "#N/A N/A", "#NA", "-1.#IND", "-1.#QNAN", "-NaN", "-nan",
                                    "1.#IND", "1.#QNAN", "<NA>", "N/A", "NA", "NULL", "NaN", "None",
                                    "n/a", "nan", "null"}

  /** A cell that `read_csv` reads as `NaN`: it equals nothing in a boolean
      mask, itself included, and `groupby` drops the groups it keys. */
  predicate NullCell(s: string) {
    s in CsvMissing
  }

  /** The join key of every merge: (Sport, Home Team, Away Team). */
  datatype GameKey = GameKey(sport: string, home: string, away: string)

  function OddsKey(o: OddsRecord): GameKey {
    GameKey(o.sport, o.home, o.away)
  }

  function ResultKey(r: ResultRecord): GameKey {
    GameKey(r.sport, r.home, r.away)
  }

  /** Whitespace that Python's `strip()` and `int()` skip but pandas'
      number parser does not: pandas skips only the ASCII space and the
      characters tab to carriage return. */
  predicate WideSpace(c: char) {
    IsSpace(c) && !(c == ' ' || '\t' <= c <= '\r')
  }

  predicate NoWideSpace(s: string) {
    forall i :: 0 <= i < |s| ==> !WideSpace(s[i])
  }

  /** One or more decimal digits and nothing else. */
  predicate AllDigits(s: string) {
    |s| > 0 && forall i :: 0 <= i < |s| ==> IsDigit(s[i])
  }

  /** An optionally signed run of plain digits, as pandas reads an integer
      cell: no underscore groups. */
  function PlainInt(t: string): Option<int> {
    if |t| >= 2 && (t[0] == '-' || t[0] == '+') && AllDigits(t[1..]) then
      Some(if t[0] == '-' then -(DigitsValue(t[1..]) as int) else DigitsValue(t[1..]))
    else if AllDigits(t) then Some(DigitsValue(t))
    else None
  }

  /** A score cell read as a number, the way `pd.to_numeric(...,
      errors='coerce')` reads it in `scripts/yesterdays_sync.py`: an
      optionally signed run of digits between ASCII whitespace gives its
      value; anything else, the empty cell included, is missing. A cell
      without wide whitespace loses exactly its ASCII padding to `strip()`,
      and a cell with some cannot be a padded digit run for pandas. The two
      other sync scripts compare the cells as `read_csv` typed them; for a
      column of integers and empty cells that is the same reading, and a
      column holding other text is outside the model. */
  function ReadScore(text: string): (r: Option<int>)
    ensures text == "" ==> r.None?
  {
    if NoWideSpace(text) then PlainInt(Strip(text)) else None
  }

  /** Where a score cell reads as a number, Python's `int()` reads the same
      number from it. */
  lemma ReadScoreIsInt(text: string)
    requires ReadScore(text).Some?
    ensures ParseInt(text) == ReadScore(text)
  {
    PlainIntStripped(Strip(text));
  }

  /** A plain integer text has no edge whitespace, and `int()` reads it as
      pandas does. */
  lemma PlainIntStripped(t: string)
    requires PlainInt(t).Some?
    ensures Unpadded(t) && ParseStripped(t) == PlainInt(t)
  {
    assert IsDigit(t[|t| - 1]);
    if |t| >= 2 && (t[0] == '-' || t[0] == '+') && AllDigits(t[1..]) {
      assert DigitGroups(t[1..]);
    } else {
      assert DigitGroups(t);
    }
  }

  /** Digits grouped by an underscore: `int()` accepts them, pandas does
      not. */
  lemma ReadScoreRejectsUnderscore(x: string, y: string)
    requires AllDigits(x) && AllDigits(y)
    ensures ParseInt(x + "_" + y).Some? && ReadScore(x + "_" + y).None?
  {
    var s := x + "_" + y;
    UnderscoreGroups(x, y);
    ParseDigitGroups(s);
    DigitGroupsUnpadded(s);
    StripUnpadded(s);
    assert s[|x|] == '_';
  }

  lemma UnderscoreGroups(x: string, y: string)
    requires AllDigits(x) && AllDigits(y)
    ensures DigitGroups(x + "_" + y)
  {
    var s := x + "_" + y;
    forall i | 0 <= i < |s| && i != |x| ensures IsDigit(s[i]) {
      if i < |x| { assert s[i] == x[i]; }
      else { assert s[i] == y[i - |x| - 1]; }
    }
    forall i, j | 0 <= i < |s| && 0 <= j < |s| && j == i + 1 && s[i] == '_' ensures s[j] != '_' {
      assert s[j] == y[0];
    }
    assert s[0] == x[0] && s[|s| - 1] == y[|y| - 1];
  }

  /** Padding by a space outside ASCII: `int()` skips it, pandas does
      not. */
  lemma ReadScoreRejectsWideSpace(ws: string, n: int)
    requires AllSpace(ws) && ws != [] && WideSpace(ws[0])
    ensures ParseInt(ws + IntToString(n)) == Some(n) && ReadScore(ws + IntToString(n)).None?
  {
    ParseIntPadded(ws, n, []);
    assert ws + IntToString(n) + [] == ws + IntToString(n);
    assert (ws + IntToString(n))[0] == ws[0];
  }

  lemma {:induction false} NatToStringDigits(n: nat)
    ensures AllDigits(NatToString(n))
  {
    if n >= 10 {
      NatToStringDigits(n / 10);
    }
  }

  /** What a score written as an integer reads back as. */
  lemma ReadWrittenScore(n: int)
    ensures ReadScore(IntToString(n)) == Some(n)
  {
    var t := IntToString(n);
    WrittenScorePlain(n);
    StripUnpadded(t);
  }

  lemma WrittenScorePlain(n: int)
    ensures PlainInt(IntToString(n)) == Some(n) && NoWideSpace(IntToString(n))
  {
    var t := IntToString(n);
    var m: nat := if n < 0 then -n else n;
    var d := NatToString(m);
    NatToStringValue(m);
    NatToStringDigits(m);
    if n < 0 {
      assert t == "-" + d && t[1..] == d;
    }
  }
}
