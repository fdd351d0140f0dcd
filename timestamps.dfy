/** Kick-off timestamps and the two text formats the scripts use:
    `"%b %d, %Y, %I:%M %p"` (as in "Mar 10, 2025, 07:00 PM"), read and
    written back by the odds and daily-list scripts, and
    `"%Y-%m-%d %H:%M:%S"`, written by the daily odds saver. */
module Timestamps {
  import opened Wrappers
  import opened Text
  import Seqs

  /** A naive wall-clock time to the minute (the formats carry no seconds). */
  datatype DateTime = DateTime(year: int, month: int, day: int, hour: int, minute: int)

  /** The calendar day of a time: what `.dt.date` yields. */
  datatype Date = Date(year: int, month: int, day: int)

  /** A value of a pandas datetime column: a timestamp, or `NaT` ("not a
      time") where the text was a missing value. */
  datatype Stamp = At(time: DateTime) | NaT

  /** The texts `pd.to_datetime` reads as `NaT` instead of raising: the empty
      text and the spellings of "not a time" and "not a number". */
  const NaTTexts: set<string> := {"", "NaT", "nat", "NAT", "nan", "NaN", "NAN"}

  predicate IsLeap(y: int) {
    y % 4 == 0 && (y % 100 != 0 || y % 400 == 0)
  }

  function DaysIn(y: int, m: int): (n: int)
    requires 1 <= m <= 12
    ensures 28 <= n <= 31
  {
    if m == 2 then (if IsLeap(y) then 29 else 28)
    else if m == 4 || m == 6 || m == 9 || m == 11 then 30
    else 31
  }

  /** The range of Python's `datetime`, to the minute. */
  predicate Valid(t: DateTime) {
    && 1 <= t.year <= 9999
    && 1 <= t.month <= 12
    && 1 <= t.day <= DaysIn(t.year, t.month)
    && 0 <= t.hour < 24
    && 0 <= t.minute < 60
  }

  /** The first and last minute of pandas' nanosecond timestamps, which run
      from 1677-09-21 00:12:43 to 2262-04-11 23:47:16. */
  const FirstNs := DateTime(1677, 9, 21, 0, 13)
  const LastNs := DateTime(2262, 4, 11, 23, 47)

  /** A time a nanosecond timestamp can hold; `pd.to_datetime` raises
      `OutOfBoundsDatetime` on any other. */
  predicate InNsRange(t: DateTime) {
    !Before(t, FirstNs) && !Before(LastNs, t)
  }

  function DateOf(t: DateTime): Date {
    Date(t.year, t.month, t.day)
  }

  /** Strict chronological order, field by field. */
  predicate Before(a: DateTime, b: DateTime) {
    || a.year < b.year
    || (a.year == b.year && a.month < b.month)
    || (a.year == b.year && a.month == b.month && a.day < b.day)
    || (a.year == b.year && a.month == b.month && a.day == b.day && a.hour < b.hour)
    || (a.year == b.year && a.month == b.month && a.day == b.day && a.hour == b.hour && a.minute < b.minute)
  }

  /** Minutes since a fixed origin, with every month counted as 31 days: a
      sort key that orders valid times chronologically. */
  function Ordinal(t: DateTime): int {
    t.year * 535680 + (t.month - 1) * 44640 + (t.day - 1) * 1440 + t.hour * 60 + t.minute
  }

  /** Sorting by `Ordinal` is sorting by time. */
  lemma OrdinalOrder(a: DateTime, b: DateTime)
    requires Valid(a) && Valid(b)
    ensures Ordinal(a) < Ordinal(b) <==> Before(a, b)
    ensures Ordinal(a) == Ordinal(b) <==> a == b
  {
  }

  /** `%b`. */
  function MonthAbbrev(m: int): (r: string)
    requires 1 <= m <= 12
    ensures |r| == 3
  {
    if m == 1 then "Jan" else if m == 2 then "Feb" else if m == 3 then "Mar"
    else if m == 4 then "Apr" else if m == 5 then "May" else if m == 6 then "Jun"
    else if m == 7 then "Jul" else if m == 8 then "Aug" else if m == 9 then "Sep"
    else if m == 10 then "Oct" else if m == 11 then "Nov" else "Dec"
  }

  /** Reading `%b` back; `None` for anything but the twelve abbreviations. */
  function MonthNumber(abbr: string): (r: Option<int>)
    ensures r.Some? ==> 1 <= r.value <= 12 && MonthAbbrev(r.value) == abbr
  {
    if abbr == "Jan" then Some(1) else if abbr == "Feb" then Some(2) else if abbr == "Mar" then Some(3)
    else if abbr == "Apr" then Some(4) else if abbr == "May" then Some(5) else if abbr == "Jun" then Some(6)
    else if abbr == "Jul" then Some(7) else if abbr == "Aug" then Some(8) else if abbr == "Sep" then Some(9)
    else if abbr == "Oct" then Some(10) else if abbr == "Nov" then Some(11) else if abbr == "Dec" then Some(12)
    else None
  }

  lemma MonthNumberAbbrev(m: int)
    requires 1 <= m <= 12
    ensures MonthNumber(MonthAbbrev(m)) == Some(m)
  {
  }

  function Tens(n: nat): char
    requires n < 100
  {
    DigitChar(n / 10)
  }

  function Ones(n: nat): char
    requires n < 100
  {
    DigitChar(n % 10)
  }

  /** `%I`: the hour on a 12-hour clock. */
  function Hour12(h: int): (r: int)
    requires 0 <= h < 24
    ensures 1 <= r <= 12
  {
    if h % 12 == 0 then 12 else h % 12
  }

  /** `t.strftime("%b %d, %Y, %I:%M %p")`, for example "Mar 10, 2025, 07:00 PM". */
  function FormatUs(t: DateTime): (r: string)
    requires Valid(t)
    ensures |r| == 22
  {
    var m := MonthAbbrev(t.month);
    var h := Hour12(t.hour);
    var c := t.year / 100;
    var y := t.year % 100;
    [ m[0], m[1], m[2], ' ', Tens(t.day), Ones(t.day), ',', ' ',
      Tens(c), Ones(c), Tens(y), Ones(y), ',', ' ',
      Tens(h), Ones(h), ':', Tens(t.minute), Ones(t.minute), ' ',
      if t.hour < 12 then 'A' else 'P', 'M' ]
  }

  /** `t.strftime("%Y-%m-%d %H:%M:%S")`, for example "2025-03-10 19:00:00". */
  function FormatIso(t: DateTime): (r: string)
    requires Valid(t)
    ensures |r| == 19
  {
    var c := t.year / 100;
    var y := t.year % 100;
    [ Tens(c), Ones(c), Tens(y), Ones(y), '-', Tens(t.month), Ones(t.month), '-',
      Tens(t.day), Ones(t.day), ' ', Tens(t.hour), Ones(t.hour), ':',
      Tens(t.minute), Ones(t.minute), ':', '0', '0' ]
  }

  function DigitValue(c: char): (d: nat)
    requires IsDigit(c)
    ensures d < 10 && DigitChar(d) == c
  {
    c as int - '0' as int
  }

  function Num2(s: string, i: nat): (n: nat)
    requires i + 2 <= |s| && IsDigit(s[i]) && IsDigit(s[i + 1])
    ensures n < 100 && Tens(n) == s[i] && Ones(n) == s[i + 1]
  {
    DigitValue(s[i]) * 10 + DigitValue(s[i + 1])
  }

  /** The shape `"Mmm DD, YYYY, HH:MM XM"` with digits in the digit places. */
  predicate UsShape(s: string) {
    && |s| == 22
    && s[3] == ' ' && s[6] == ',' && s[7] == ' ' && s[12] == ',' && s[13] == ' '
    && s[16] == ':' && s[19] == ' ' && s[21] == 'M' && (s[20] == 'A' || s[20] == 'P')
    && IsDigit(s[4]) && IsDigit(s[5]) && IsDigit(s[8]) && IsDigit(s[9])
    && IsDigit(s[10]) && IsDigit(s[11]) && IsDigit(s[14]) && IsDigit(s[15])
    && IsDigit(s[17]) && IsDigit(s[18])
  }

  /** `datetime.strptime(s, "%b %d, %Y, %I:%M %p")` on text in the canonical
      form `strftime` produces; `None` where Python raises `ValueError`. */
  function ParseUs(s: string): (r: Option<DateTime>)
    ensures r.Some? ==> Valid(r.value)
  {
    if !UsShape(s) then None
    else
      match MonthNumber(s[..3])
      case None => None
      case Some(month) =>
        var day := Num2(s, 4);
        var year := Num2(s, 8) * 100 + Num2(s, 10);
        var h12 := Num2(s, 14);
        var minute := Num2(s, 17);
        if 1 <= h12 <= 12 && minute < 60 && 1 <= year && 1 <= day <= DaysIn(year, month)
        then Some(DateTime(year, month, day, h12 % 12 + (if s[20] == 'P' then 12 else 0), minute))
        else None
  }

  lemma Num2Of(s: string, i: nat, n: nat)
    requires n < 100 && i + 2 <= |s| && s[i] == Tens(n) && s[i + 1] == Ones(n)
    ensures IsDigit(s[i]) && IsDigit(s[i + 1]) && Num2(s, i) == n
  {
  }

  /** The digit fields of a rendering read back as the time's fields. */
  lemma FormatUsFields(t: DateTime)
    requires Valid(t)
    ensures var s := FormatUs(t);
      && UsShape(s)
      && s[..3] == MonthAbbrev(t.month)
      && Num2(s, 4) == t.day
      && Num2(s, 8) * 100 + Num2(s, 10) == t.year
      && Num2(s, 14) == Hour12(t.hour)
      && Num2(s, 17) == t.minute
  {
    var s := FormatUs(t);
    Num2Of(s, 4, t.day);
    Num2Of(s, 8, t.year / 100);
    Num2Of(s, 10, t.year % 100);
    Num2Of(s, 14, Hour12(t.hour));
    Num2Of(s, 17, t.minute);
  }

  lemma FormatUsHour(t: DateTime)
    requires Valid(t)
    ensures var s := FormatUs(t);
      Hour12(t.hour) % 12 + (if s[20] == 'P' then 12 else 0) == t.hour
  {
  }

  /** Formatting then parsing gives back the time. */
  lemma ParseFormatUs(t: DateTime)
    requires Valid(t)
    ensures ParseUs(FormatUs(t)) == Some(t)
  {
    FormatUsFields(t);
    FormatUsHour(t);
    MonthNumberAbbrev(t.month);
  }

  /** The fields the parser reads, rendered again, give the digit places back. */
  lemma ParsedFields(s: string)
    requires ParseUs(s).Some?
    ensures var t := ParseUs(s).value;
      && UsShape(s)
      && MonthAbbrev(t.month) == s[..3]
      && t.day == Num2(s, 4)
      && t.year / 100 == Num2(s, 8) && t.year % 100 == Num2(s, 10)
      && Hour12(t.hour) == Num2(s, 14)
      && (t.hour < 12 <==> s[20] == 'A')
      && t.minute == Num2(s, 17)
  {
  }

  /** Every text the parser accepts is the canonical rendering of the time it
      denotes, so such a date survives parse and re-format unchanged. */
  lemma FormatParseUs(s: string)
    requires ParseUs(s).Some?
    ensures FormatUs(ParseUs(s).value) == s
  {
    var t := ParseUs(s).value;
    ParsedFields(s);
    var f := FormatUs(t);
    assert s[..3][0] == s[0] && s[..3][1] == s[1] && s[..3][2] == s[2];
    assert forall i :: 0 <= i < 22 ==> f[i] == s[i];
  }
}
