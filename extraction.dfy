/** Flattening a scraped odds page into one raw row per quoted price. The
    page is taken as already parsed: a sequence of games, each with a title
    "<home> vs <away>", a kick-off text and team sections, each section with
    a team label and price items (price text and bookmaker text). The three
    revisions of the loop differ only in what they do with the kick-off
    text, which `DateMode` selects. */
module Extraction {
  import opened Wrappers
  import opened Text
  import opened Timestamps
  import opened Seqs

  datatype Item = Item(priceText: string, bookmakerText: string)
  datatype Section = Section(teamText: string, items: seq<Item>)
  datatype Game = Game(title: string, dateText: string, sections: seq<Section>)

  /** What a revision writes in the `Match Date` column. `toEastern` is the
      UTC to America/New_York conversion, an input of the model. */
  datatype DateMode =
    | KeepText                                     // the stand-alone converter script
    | IsoEastern(toEastern: DateTime -> DateTime)  // the daily odds saver
    | UsEastern(toEastern: DateTime -> DateTime)   // the odds compiler

  /** One record of the flat table. */
  datatype RawRow = RawRow(date: string, home: string, away: string,
                           team: string, price: string, bookmaker: string)

  /** `teams[1]` raises IndexError when the title has no " vs ". */
  datatype ExtractError = NoVersus(title: string)

  const Versus: string := " vs "

  /** The kick-off text as written to the table: re-rendered when it parses
      as "%b %d, %Y, %I:%M %p" and the converted time can be formatted,
      otherwise the text as scraped (the `except` branch keeps it). */
  function MatchDate(mode: DateMode, text: string): string {
    match mode
    case KeepText => text
    case IsoEastern(toEastern) =>
      (match ParseUs(text)
       case None => text
       case Some(t) => if Valid(toEastern(t)) then FormatIso(toEastern(t)) else text)
    case UsEastern(toEastern) =>
      (match ParseUs(text)
       case None => text
       case Some(t) => if Valid(toEastern(t)) then FormatUs(toEastern(t)) else text)
  }

  /** The text of `s` up to the first `sep`, or all of it. */
  function UpTo(s: string, sep: string): (r: string)
    ensures |r| <= |s| && r == s[..|r|]
  {
    match Find(s, sep)
    case None => s
    case Some(i) => s[..i]
  }

  /** Home and away teams of a title: the stripped text before the first
      " vs ", and the stripped text after it up to the next " vs " (any
      further parts are ignored). */
  function SplitTitle(title: string): (r: Result<(string, string), ExtractError>)
    ensures r.Err? <==> Find(title, Versus).None?
    ensures r.Ok? ==> Unpadded(r.value.0) && Unpadded(r.value.1)
  {
    match Find(title, Versus)
    case None => Err(NoVersus(title))
    case Some(i) => Ok((Strip(title[..i]), Strip(UpTo(title[i + |Versus|..], Versus))))
  }

  /** `teams = title.split(' vs ')` followed by `teams[0].strip()` and
      `teams[1].strip()` computes `SplitTitle`, and fails exactly when it does. */
  lemma SplitTitleIsSplit(title: string)
    ensures var teams := Split(title, Versus);
      && (|teams| < 2 <==> SplitTitle(title).Err?)
      && (|teams| >= 2 ==> SplitTitle(title).value == (Strip(teams[0]), Strip(teams[1])))
  {
    var teams := Split(title, Versus);
    SplitFirst(title, Versus);
    if |teams| >= 2 {
      var i := Find(title, Versus).value;
      SplitFirst(title[i + |Versus|..], Versus);
      assert teams[1..] == Split(title[i + |Versus|..], Versus);
    }
  }

  // ---------------------------------------------------------------------
  // The flat table, level by level

  /** Rows of one section's items, in item order. */
  function ItemRows(date: string, home: string, away: string, team: string, items: seq<Item>): (r: seq<RawRow>)
    ensures |r| == |items|
  {
    if items == [] then []
    else
      var it := items[|items| - 1];
      ItemRows(date, home, away, team, items[..|items| - 1])
        + [RawRow(date, home, away, team, Strip(it.priceText), Strip(it.bookmakerText))]
  }

  /** Rows of a game's sections, section by section. */
  function SectionRows(date: string, home: string, away: string, sections: seq<Section>): seq<RawRow> {
    if sections == [] then []
    else
      var s := sections[|sections| - 1];
      SectionRows(date, home, away, sections[..|sections| - 1])
        + ItemRows(date, home, away, Strip(s.teamText), s.items)
  }

  /** The date column as a function of the scraped text. */
  function Renderer(mode: DateMode): string -> string {
    text => MatchDate(mode, text)
  }

  /** Rows of one game, its date written by `render`. */
  function GameRows(render: string -> string, g: Game): Result<seq<RawRow>, ExtractError> {
    var date := render(g.dateText);
    match SplitTitle(g.title)
    case Err(e) => Err(e)
    case Ok((home, away)) => Ok(SectionRows(date, home, away, g.sections))
  }

  function GameRowsOf(render: string -> string): Game -> Result<seq<RawRow>, ExtractError> {
    g => GameRows(render, g)
  }

  /** `parse_html_to_table`: the rows of all games, game by game; the first
      game without " vs " in its title aborts the whole call. */
  function Extract(render: string -> string, games: seq<Game>): Result<seq<RawRow>, ExtractError> {
    Concat(GameRowsOf(render), games)
  }

  lemma ItemRowsStep(date: string, home: string, away: string, team: string, items: seq<Item>, k: nat)
    requires k < |items|
    ensures ItemRows(date, home, away, team, items[..k + 1]) == ItemRows(date, home, away, team, items[..k])
      + [RawRow(date, home, away, team, Strip(items[k].priceText), Strip(items[k].bookmakerText))]
  {
    assert items[..k + 1][..k] == items[..k];
  }

  lemma SectionRowsStep(date: string, home: string, away: string, sections: seq<Section>, k: nat)
    requires k < |sections|
    ensures SectionRows(date, home, away, sections[..k + 1]) == SectionRows(date, home, away, sections[..k])
      + ItemRows(date, home, away, Strip(sections[k].teamText), sections[k].items)
  {
    assert sections[..k + 1][..k] == sections[..k];
  }

  /** The `try` block around the kick-off conversion. */
  method ConvertDate(mode: DateMode, text: string) returns (matchDate: string)
    ensures matchDate == MatchDate(mode, text)
  {
    matchDate := text;
    if !mode.KeepText? {
      var parsed := ParseUs(text);
      if parsed.Some? {
        var eastern := mode.toEastern(parsed.value);
        if Valid(eastern) {
          matchDate := if mode.IsoEastern? then FormatIso(eastern) else FormatUs(eastern);
        }
      }
    }
  }

  /** The two inner loops: one record per price item of a game's sections,
      appended to `allData`. */
  method AppendSections(allData: seq<RawRow>, matchDate: string, homeTeam: string, awayTeam: string,
                        sections: seq<Section>) returns (out: seq<RawRow>)
    ensures out == allData + SectionRows(matchDate, homeTeam, awayTeam, sections)
  {
    out := allData;
    for si := 0 to |sections|
      invariant out == allData + SectionRows(matchDate, homeTeam, awayTeam, sections[..si])
    {
      var section := sections[si];
      var teamName := Strip(section.teamText);
      ghost var start := out;
      for ii := 0 to |section.items|
        invariant out == start + ItemRows(matchDate, homeTeam, awayTeam, teamName, section.items[..ii])
      {
        var item := section.items[ii];
        var price := Strip(item.priceText);
        var bookmaker := Strip(item.bookmakerText);
        var record := RawRow(matchDate, homeTeam, awayTeam, teamName, price, bookmaker);
        ItemRowsStep(matchDate, homeTeam, awayTeam, teamName, section.items, ii);
        out := out + [record];
        AppendAssoc(start, ItemRows(matchDate, homeTeam, awayTeam, teamName, section.items[..ii]), [record]);
      }
      assert section.items[..|section.items|] == section.items;
      SectionRowsStep(matchDate, homeTeam, awayTeam, sections, si);
      AppendAssoc(allData, SectionRows(matchDate, homeTeam, awayTeam, sections[..si]),
        ItemRows(matchDate, homeTeam, awayTeam, teamName, section.items));
    }
    TakeAll(sections);
  }

  /** The three nested loops that append one record per price item. */
  method ParseHtmlToTable(mode: DateMode, games: seq<Game>) returns (r: Result<seq<RawRow>, ExtractError>)
    ensures r == Extract(Renderer(mode), games)
  {
    ghost var f := GameRowsOf(Renderer(mode));
    var allData: seq<RawRow> := [];
    for gi := 0 to |games|
      invariant Concat(f, games[..gi]) == Ok(allData)
    {
      var game := games[gi];
      ConcatStep(f, games, gi, allData);
      var matchDate := ConvertDate(mode, game.dateText);
      var teams := Split(game.title, Versus);
      SplitTitleIsSplit(game.title);
      if |teams| < 2 {
        ConcatErrPrefix(f, games, gi + 1);
        return Err(NoVersus(game.title));
      }
      var homeTeam := Strip(teams[0]);
      var awayTeam := Strip(teams[1]);
      assert f(game) == Ok(SectionRows(matchDate, homeTeam, awayTeam, game.sections));
      allData := AppendSections(allData, matchDate, homeTeam, awayTeam, game.sections);
    }
    TakeAll(games);
    return Ok(allData);
  }

  // ---------------------------------------------------------------------
  // Properties

  function ItemCount(sections: seq<Section>): nat {
    if sections == [] then 0
    else ItemCount(sections[..|sections| - 1]) + |sections[|sections| - 1].items|
  }

  function TotalItems(games: seq<Game>): nat {
    if games == [] then 0
    else TotalItems(games[..|games| - 1]) + ItemCount(games[|games| - 1].sections)
  }

  lemma {:induction false} SectionRowsCount(date: string, home: string, away: string, sections: seq<Section>)
    ensures |SectionRows(date, home, away, sections)| == ItemCount(sections)
  {
    if sections != [] {
      SectionRowsCount(date, home, away, sections[..|sections| - 1]);
    }
  }

  lemma GameRowsCount(render: string -> string, g: Game)
    requires GameRows(render, g).Ok?
    ensures |GameRows(render, g).value| == ItemCount(g.sections)
  {
    var h := SplitTitle(g.title).value;
    SectionRowsCount(render(g.dateText), h.0, h.1, g.sections);
  }

  /** Exactly one row per price item of the page. */
  lemma {:induction false} RowCount(render: string -> string, games: seq<Game>)
    requires Extract(render, games).Ok?
    ensures |Extract(render, games).value| == TotalItems(games)
  {
    if games != [] {
      var p, g := games[..|games| - 1], games[|games| - 1];
      assert GameRowsOf(render)(g) == GameRows(render, g);
      RowCount(render, p);
      GameRowsCount(render, g);
    }
  }

  /** Extraction fails exactly when some game's title lacks " vs ". */
  lemma ExtractFails(render: string -> string, games: seq<Game>)
    ensures Extract(render, games).Err? <==> exists g :: g in games && Find(g.title, Versus).None?
  {
    ConcatFails(GameRowsOf(render), games);
  }

  /** Pages concatenate: the rows of two runs of games are the rows of the
      first followed by the rows of the second (document order). */
  lemma ExtractAppend(render: string -> string, g1: seq<Game>, g2: seq<Game>)
    requires Extract(render, g1).Ok? && Extract(render, g2).Ok?
    ensures Extract(render, g1 + g2) == Ok(Extract(render, g1).value + Extract(render, g2).value)
  {
    ConcatAppend(GameRowsOf(render), g1, g2);
  }

  /** The k-th item of a section becomes the k-th row, its price and
      bookmaker stripped, stamped with the game's date and teams. */
  lemma {:induction false} ItemRowAt(date: string, home: string, away: string, team: string, items: seq<Item>, k: nat)
    requires k < |items|
    ensures ItemRows(date, home, away, team, items)[k]
      == RawRow(date, home, away, team, Strip(items[k].priceText), Strip(items[k].bookmakerText))
  {
    if k < |items| - 1 {
      ItemRowAt(date, home, away, team, items[..|items| - 1], k);
    }
  }

  /** A section with its label stripped heads each of its rows. */
  lemma {:induction false} SectionRowsFields(date: string, home: string, away: string, sections: seq<Section>)
    ensures forall r :: r in SectionRows(date, home, away, sections) ==>
      r.date == date && r.home == home && r.away == away
      && exists s :: s in sections && r.team == Strip(s.teamText)
  {
    if sections != [] {
      var p := sections[..|sections| - 1];
      var s := sections[|sections| - 1];
      SectionRowsFields(date, home, away, p);
      forall r | r in ItemRows(date, home, away, Strip(s.teamText), s.items)
        ensures r.date == date && r.home == home && r.away == away && r.team == Strip(s.teamText)
      {
        var k :| 0 <= k < |s.items| && ItemRows(date, home, away, Strip(s.teamText), s.items)[k] == r;
        ItemRowAt(date, home, away, Strip(s.teamText), s.items, k);
      }
      assert forall x :: x in p ==> x in sections;
    }
  }

  /** All rows of one game share its date and its two teams. */
  lemma GameRowsShareMatch(render: string -> string, g: Game)
    requires GameRows(render, g).Ok?
    ensures var teams := SplitTitle(g.title).value;
      forall r :: r in GameRows(render, g).value ==>
        r.date == render(g.dateText) && r.home == teams.0 && r.away == teams.1
  {
    var teams := SplitTitle(g.title).value;
    SectionRowsFields(render(g.dateText), teams.0, teams.1, g.sections);
  }

  /** A kick-off text that does not parse is kept as scraped, and the game
      is still extracted. */
  lemma UnparsedDateKept(mode: DateMode, text: string)
    requires mode.KeepText? || ParseUs(text).None?
    ensures MatchDate(mode, text) == text
  {
  }

  /** The compiler's re-rendered date is canonical: it parses back to the
      converted time, so it survives the daily list's parse and re-format. */
  lemma UsDateParses(toEastern: DateTime -> DateTime, text: string)
    requires ParseUs(text).Some? && Valid(toEastern(ParseUs(text).value))
    ensures ParseUs(MatchDate(UsEastern(toEastern), text)) == Some(toEastern(ParseUs(text).value))
  {
    ParseFormatUs(toEastern(ParseUs(text).value));
  }

  /** In the compiler the written date parses as "%b %d, %Y, %I:%M %p"
      exactly when the scraped text did: a re-rendered date always parses,
      and a date left as scraped parses only if it already did. */
  lemma UsDateParsesIff(toEastern: DateTime -> DateTime, text: string)
    ensures ParseUs(MatchDate(UsEastern(toEastern), text)).Some?
      <==> ParseUs(text).Some?
  {
    match ParseUs(text)
    case None =>
    case Some(t) =>
      if Valid(toEastern(t)) {
        ParseFormatUs(toEastern(t));
      }
  }

  /** The saver writes a converted date as "YYYY-MM-DD HH:MM:SS". */
  lemma IsoDateShape(toEastern: DateTime -> DateTime, text: string)
    requires ParseUs(text).Some? && Valid(toEastern(ParseUs(text).value))
    ensures var d := MatchDate(IsoEastern(toEastern), text);
      |d| == 19 && d[4] == '-' && d[7] == '-' && d[10] == ' ' && d[13] == ':'
  {
  }
}
