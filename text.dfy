/** The string operations the scripts apply to scraped and loaded text:
    `str.strip`, `str.lower`, `str.split(sep)`, `str.replace(pat, '')` and
    `int(text)`, with Python's semantics. */
module Text {
  import opened Wrappers

  /** Python's `str.isspace()` characters: what `strip()` and `int()` skip. */
  predicate IsSpace(c: char) {
    || ('\t' <= c <= '\r')
    || ('\U{1c}' <= c <= '\U{1f}')
    || c == ' ' || c == '\U{85}' || c == '\U{a0}' || c == '\U{1680}'
    || ('\U{2000}' <= c <= '\U{200a}')
    || c == '\U{2028}' || c == '\U{2029}' || c == '\U{202f}' || c == '\U{205f}' || c == '\U{3000}'
  }

  /** No whitespace at either end. */
  predicate Unpadded(s: string) {
    s == [] || (!IsSpace(s[0]) && !IsSpace(s[|s| - 1]))
  }

  predicate AllSpace(s: string) {
    forall i :: 0 <= i < |s| ==> IsSpace(s[i])
  }

  /** `s.lstrip()`: the longest all-whitespace prefix is removed. */
  function TrimLeft(s: string): (r: string)
    ensures |r| <= |s| && r == s[|s| - |r|..]
    ensures r == [] || !IsSpace(r[0])
  {
    if s != [] && IsSpace(s[0]) then
      TrimLeft(s[1..])
    else s
  }

  /** `s.rstrip()`: the longest all-whitespace suffix is removed. */
  function TrimRight(s: string): (r: string)
    ensures |r| <= |s| && r == s[..|r|]
    ensures r == [] || !IsSpace(r[|r| - 1])
  {
    if s != [] && IsSpace(s[|s| - 1]) then
      TrimRight(s[..|s| - 1])
    else s
  }

  /** What `lstrip()` removes is whitespace. */
  lemma {:induction false} TrimLeftRemovesSpace(s: string)
    ensures AllSpace(s[..|s| - |TrimLeft(s)|])
  {
    if s != [] && IsSpace(s[0]) {
      TrimLeftRemovesSpace(s[1..]);
      var k := |s| - |TrimLeft(s)|;
      assert s[..k] == [s[0]] + s[1..][..k - 1];
    }
  }

  /** What `rstrip()` removes is whitespace. */
  lemma {:induction false} TrimRightRemovesSpace(s: string)
    ensures AllSpace(s[|TrimRight(s)|..])
  {
    if s != [] && IsSpace(s[|s| - 1]) {
      TrimRightRemovesSpace(s[..|s| - 1]);
      var k := |TrimRight(s)|;
      assert s[k..] == s[..|s| - 1][k..] + [s[|s| - 1]];
    }
  }

  /** `s.strip()`. */
  function Strip(s: string): (r: string)
    ensures Unpadded(r)
    ensures |r| <= |s|
  {
    var l := TrimLeft(s);
    var r := TrimRight(l);
    assert r != [] ==> r[0] == l[0];
    r
  }

  lemma TrimLeftUnpadded(s: string)
    requires s == [] || !IsSpace(s[0])
    ensures TrimLeft(s) == s
  {
  }

  lemma TrimRightUnpadded(s: string)
    requires s == [] || !IsSpace(s[|s| - 1])
    ensures TrimRight(s) == s
  {
  }

  /** Stripping changes nothing in a string without edge whitespace. */
  lemma StripUnpadded(s: string)
    requires Unpadded(s)
    ensures Strip(s) == s
  {
    TrimLeftUnpadded(s);
    TrimRightUnpadded(s);
  }

  /** `strip()` is idempotent. */
  lemma StripIdempotent(s: string)
    ensures Strip(Strip(s)) == Strip(s)
  {
    StripUnpadded(Strip(s));
  }

  lemma {:induction false} TrimLeftPadding(ws: string, s: string)
    requires AllSpace(ws)
    ensures TrimLeft(ws + s) == TrimLeft(s)
  {
    if ws != [] {
      assert (ws + s)[0] == ws[0];
      assert (ws + s)[1..] == ws[1..] + s;
      TrimLeftPadding(ws[1..], s);
    } else {
      assert ws + s == s;
    }
  }

  lemma {:induction false} TrimRightPadding(s: string, ws: string)
    requires AllSpace(ws)
    ensures TrimRight(s + ws) == TrimRight(s)
  {
    if ws != [] {
      assert (s + ws)[|s + ws| - 1] == ws[|ws| - 1];
      assert (s + ws)[..|s + ws| - 1] == s + ws[..|ws| - 1];
      TrimRightPadding(s, ws[..|ws| - 1]);
    } else {
      assert s + ws == s;
    }
  }

  /** Whitespace padding on either side of an unpadded text is exactly what
      `strip()` removes. */
  lemma StripPadding(ws: string, s: string, ws': string)
    requires AllSpace(ws) && AllSpace(ws') && Unpadded(s)
    ensures Strip(ws + s + ws') == s
  {
    var p := ws + s + ws';
    assert p == ws + (s + ws');
    TrimLeftPadding(ws, s + ws');
    if s == [] {
      assert s + ws' == ws' + s;
      TrimLeftPadding(ws', s);
    } else {
      assert (s + ws')[0] == s[0];
      TrimLeftUnpadded(s + ws');
      TrimRightPadding(s, ws');
      TrimRightUnpadded(s);
    }
  }

  /** Python's `str.lower()` on ASCII letters; other characters unchanged. */
  function LowerChar(c: char): (r: char)
    ensures 'A' <= c <= 'Z' ==> 'a' <= r <= 'z'
    ensures !('A' <= c <= 'Z') ==> r == c
    ensures !('A' <= r <= 'Z')
  {
    if 'A' <= c <= 'Z' then (c as int - 'A' as int + 'a' as int) as char else c
  }

  /** `s.lower()`. */
  function Lower(s: string): (r: string)
    ensures |r| == |s|
    ensures forall i :: 0 <= i < |s| ==> r[i] == LowerChar(s[i])
  {
    seq(|s|, i requires 0 <= i < |s| => LowerChar(s[i]))
  }

  lemma LowerCharSpace(c: char)
    ensures IsSpace(LowerChar(c)) == IsSpace(c)
  {
    if 'A' <= c <= 'Z' {
      assert !IsSpace(c) && !IsSpace(LowerChar(c));
    }
  }

  /** Lowering a text without upper-case letters changes nothing. */
  lemma LowerNoUpper(s: string)
    requires forall i :: 0 <= i < |s| ==> !('A' <= s[i] <= 'Z')
    ensures Lower(s) == s
  {
    var r := Lower(s);
    forall i | 0 <= i < |s| ensures r[i] == s[i] {
      assert r[i] == LowerChar(s[i]);
    }
  }

  /** The join-key normalisation `.astype(str).str.strip().str.lower()`. */
  function Normalize(s: string): (r: string)
    ensures Unpadded(r)
    ensures forall i :: 0 <= i < |r| ==> !('A' <= r[i] <= 'Z')
  {
    var t := Strip(s);
    LowerUnpadded(t);
    Lower(t)
  }

  lemma LowerUnpadded(t: string)
    requires Unpadded(t)
    ensures Unpadded(Lower(t))
  {
    var r := Lower(t);
    if r != [] {
      assert r[0] == LowerChar(t[0]);
      assert r[|r| - 1] == LowerChar(t[|t| - 1]);
      LowerCharSpace(t[0]);
      LowerCharSpace(t[|t| - 1]);
    }
  }

  /** Normalising twice is normalising once, so re-normalised keys still join. */
  lemma NormalizeIdempotent(s: string)
    ensures Normalize(Normalize(s)) == Normalize(s)
  {
    var n := Normalize(s);
    StripUnpadded(n);
    LowerNoUpper(n);
  }

  /** Keys that differ only in edge whitespace and ASCII case normalise alike. */
  lemma NormalizeIgnoresPaddingAndCase(ws: string, s: string, ws': string, t: string)
    requires AllSpace(ws) && AllSpace(ws') && Unpadded(s) && Unpadded(t)
    requires Lower(s) == Lower(t)
    ensures Normalize(ws + s + ws') == Normalize(t)
  {
    StripPadding(ws, s, ws');
    StripUnpadded(t);
  }

  // ---------------------------------------------------------------------
  // str.split(sep) for a non-empty separator

  predicate OccursAt(s: string, sep: string, i: int) {
    0 <= i && i + |sep| <= |s| && s[i..i + |sep|] == sep
  }

  /** Index of the first occurrence of `sep` in `s` at or after `from`. */
  function FindFrom(s: string, sep: string, from: nat): (r: Option<nat>)
    requires from <= |s|
    decreases |s| - from
    ensures r.Some? ==> from <= r.value && OccursAt(s, sep, r.value)
    ensures r.Some? ==> forall j :: from <= j < r.value ==> !OccursAt(s, sep, j)
    ensures r.None? ==> forall j :: from <= j <= |s| ==> !OccursAt(s, sep, j)
  {
    if from + |sep| > |s| then None
    else if s[from..from + |sep|] == sep then Some(from)
    else FindFrom(s, sep, from + 1)
  }

  /** `s.find(sep)`, as an option. */
  function Find(s: string, sep: string): (r: Option<nat>)
    ensures r.Some? ==> OccursAt(s, sep, r.value)
    ensures r.Some? ==> forall j :: 0 <= j < r.value ==> !OccursAt(s, sep, j)
    ensures r.None? ==> forall j :: 0 <= j <= |s| ==> !OccursAt(s, sep, j)
  {
    FindFrom(s, sep, 0)
  }

  /** `s.split(sep)`: the pieces between non-overlapping occurrences of
      `sep`, scanning from the left. */
  function Split(s: string, sep: string): (r: seq<string>)
    requires |sep| > 0
    decreases |s|
    ensures |r| >= 1
  {
    match Find(s, sep)
    case None => [s]
    case Some(i) => [s[..i]] + Split(s[i + |sep|..], sep)
  }

  /** `sep.join(parts)`. */
  function Join(parts: seq<string>, sep: string): string {
    if |parts| <= 1 then (if parts == [] then "" else parts[0])
    else parts[0] + sep + Join(parts[1..], sep)
  }

  lemma JoinCons(a: string, ps: seq<string>, sep: string)
    requires |ps| >= 1
    ensures Join([a] + ps, sep) == a + sep + Join(ps, sep)
  {
    assert ([a] + ps)[1..] == ps;
  }

  lemma SplitStep(s: string, sep: string, i: nat)
    requires |sep| > 0 && Find(s, sep) == Some(i)
    ensures Split(s, sep) == [s[..i]] + Split(s[i + |sep|..], sep)
    ensures s == s[..i] + sep + s[i + |sep|..]
  {
    assert s[i..i + |sep|] == sep;
    assert s == s[..i] + s[i..i + |sep|] + s[i + |sep|..];
  }

  /** Splitting loses nothing: joining the pieces back gives the text. */
  lemma {:induction false} SplitJoin(s: string, sep: string)
    requires |sep| > 0
    decreases |s|
    ensures Join(Split(s, sep), sep) == s
  {
    match Find(s, sep)
    case None =>
    case Some(i) =>
      var rest := s[i + |sep|..];
      SplitStep(s, sep, i);
      SplitJoin(rest, sep);
      JoinCons(s[..i], Split(rest, sep), sep);
  }

  lemma OccursInPrefix(s: string, sep: string, n: nat, j: int)
    requires n <= |s| && OccursAt(s[..n], sep, j)
    ensures OccursAt(s, sep, j)
  {
    assert s[..n][j..j + |sep|] == s[j..j + |sep|];
  }

  /** No piece of a split contains the separator. */
  lemma {:induction false} SplitPiecesFree(s: string, sep: string, k: nat)
    requires |sep| > 0 && k < |Split(s, sep)|
    decreases |s|
    ensures forall j :: 0 <= j <= |Split(s, sep)[k]| ==> !OccursAt(Split(s, sep)[k], sep, j)
  {
    match Find(s, sep)
    case None =>
    case Some(i) =>
      var rest := s[i + |sep|..];
      assert Split(s, sep) == [s[..i]] + Split(rest, sep);
      if k == 0 {
        forall j | 0 <= j <= i ensures !OccursAt(s[..i], sep, j) {
          if OccursAt(s[..i], sep, j) {
            OccursInPrefix(s, sep, i, j);
          }
        }
      } else {
        SplitPiecesFree(rest, sep, k - 1);
      }
  }

  /** The first piece is the text before the first occurrence of `sep`. */
  lemma SplitFirst(s: string, sep: string)
    requires |sep| > 0
    ensures Find(s, sep).None? ==> Split(s, sep) == [s]
    ensures Find(s, sep).Some? ==> |Split(s, sep)| >= 2 && Split(s, sep)[0] == s[..Find(s, sep).value]
  {
  }

  // ---------------------------------------------------------------------
  // str.replace(pat, '')

  /** `s.replace(pat, '')`: occurrences found left to right are deleted. */
  function RemoveAll(s: string, pat: string): (r: string)
    requires |pat| > 0
    decreases |s|
    ensures |r| <= |s|
  {
    if s == [] then []
    else if |pat| <= |s| && s[..|pat|] == pat then RemoveAll(s[|pat|..], pat)
    else [s[0]] + RemoveAll(s[1..], pat)
  }

  /** A text in which the pattern's first character never occurs is left alone,
      and a trailing copy of the pattern is deleted. */
  lemma {:induction false} RemoveTrailing(s: string, pat: string)
    requires |pat| > 0 && pat[0] !in s
    decreases |s|
    ensures RemoveAll(s, pat) == s
    ensures RemoveAll(s + pat, pat) == s
  {
    if s == [] {
      assert RemoveAll(pat[|pat|..], pat) == [];
    } else {
      assert (s + pat)[1..] == s[1..] + pat;
      assert (s + pat)[0] == s[0] != pat[0];
      RemoveTrailing(s[1..], pat);
    }
  }

  // ---------------------------------------------------------------------
  // int(text)

  predicate IsDigit(c: char) { '0' <= c <= '9' }

  /** The body Python's `int()` accepts after the sign: decimal digits,
      optionally grouped by single underscores between digits. */
  predicate DigitGroups(s: string) {
    && |s| > 0 && IsDigit(s[0]) && IsDigit(s[|s| - 1])
    && (forall i :: 0 <= i < |s| ==> IsDigit(s[i]) || s[i] == '_')
    && (forall i, j :: 0 <= i < |s| && 0 <= j < |s| && j == i + 1 ==> s[i] == '_' ==> s[j] != '_')
  }

  /** The number a run of digits and underscores denotes. */
  function DigitsValue(s: string): nat {
    if s == [] then 0
    else
      var c := s[|s| - 1];
      if IsDigit(c) then DigitsValue(s[..|s| - 1]) * 10 + (c as int - '0' as int)
      else DigitsValue(s[..|s| - 1])
  }

  /** `int(text)`: `None` where Python raises `ValueError`. */
  function ParseInt(text: string): Option<int> {
    ParseStripped(Strip(text))
  }

  /** `int()` after the surrounding whitespace is gone. */
  function ParseStripped(t: string): Option<int> {
    if t == [] then None
    else if t[0] == '-' then
      match Unsigned(t[1..])
      case None => None
      case Some(v) => Some(-(v as int))
    else if t[0] == '+' then Unsigned(t[1..])
    else Unsigned(t)
  }

  /** The value of an unsigned digit body, if it is well formed. */
  function Unsigned(t: string): (r: Option<int>)
    ensures r.Some? ==> r.value >= 0
  {
    if DigitGroups(t) then Some(DigitsValue(t)) else None
  }

  function DigitChar(d: nat): (c: char)
    requires d < 10
    ensures IsDigit(c)
  {
    ('0' as int + d) as char
  }

  /** `str(n)` for a natural number. */
  function NatToString(n: nat): (r: string)
    ensures |r| > 0 && IsDigit(r[0]) && IsDigit(r[|r| - 1])
  {
    if n < 10 then [DigitChar(n)] else NatToString(n / 10) + [DigitChar(n % 10)]
  }

  /** `str(n)`. */
  function IntToString(n: int): (r: string)
    ensures |r| > 0 && (IsDigit(r[0]) || r[0] == '-') && IsDigit(r[|r| - 1])
  {
    if n < 0 then "-" + NatToString(-n) else NatToString(n)
  }

  lemma {:induction false} NatToStringValue(n: nat)
    ensures DigitGroups(NatToString(n))
    ensures DigitsValue(NatToString(n)) == n
  {
    var s := NatToString(n);
    if n >= 10 {
      NatToStringValue(n / 10);
      assert s[..|s| - 1] == NatToString(n / 10);
    }
  }

  lemma DigitGroupsUnpadded(s: string)
    requires DigitGroups(s)
    ensures Unpadded(s) && s[0] != '+' && s[0] != '-'
  {
    var c, d := s[0], s[|s| - 1];
    assert IsDigit(c) && IsDigit(d);
  }

  /** `int()` on a text without edge whitespace reads it as it is. */
  lemma ParseUnpadded(s: string)
    requires Unpadded(s)
    ensures ParseInt(s) == ParseStripped(s)
  {
    StripUnpadded(s);
  }

  lemma UnsignedDigitGroups(s: string)
    requires DigitGroups(s)
    ensures Unsigned(s) == Some(DigitsValue(s) as int)
  {
  }

  lemma ParseDigitGroups(s: string)
    requires DigitGroups(s)
    ensures ParseInt(s) == Some(DigitsValue(s))
  {
    DigitGroupsUnpadded(s);
    ParseUnpadded(s);
    UnsignedDigitGroups(s);
  }

  lemma ParseNegative(t: string)
    requires |t| >= 2 && t[0] == '-' && DigitGroups(t[1..])
    ensures ParseInt(t) == Some(-(DigitsValue(t[1..]) as int))
  {
    var s := t[1..];
    DigitGroupsUnpadded(s);
    assert t[|t| - 1] == s[|s| - 1];
    ParseUnpadded(t);
    UnsignedDigitGroups(s);
  }

  lemma NatRoundTrip(n: nat)
    ensures ParseInt(NatToString(n)) == Some(n)
  {
    var d := NatToString(n);
    NatToStringValue(n);
    ParseDigitGroups(d);
  }

  lemma IntToStringNegative(n: int)
    requires n < 0
    ensures var t := IntToString(n);
      |t| >= 2 && t[0] == '-' && DigitGroups(t[1..]) && DigitsValue(t[1..]) == -n
  {
    var d := NatToString(-n);
    NatToStringValue(-n);
    assert IntToString(n) == "-" + d;
    assert ("-" + d)[1..] == d;
  }

  /** `int(str(n)) == n`. */
  lemma IntRoundTrip(n: int)
    ensures ParseInt(IntToString(n)) == Some(n)
  {
    if n < 0 {
      IntToStringNegative(n);
      ParseNegative(IntToString(n));
    } else {
      NatRoundTrip(n);
    }
  }

  /** `int()` ignores surrounding whitespace. */
  lemma ParsePadded(ws: string, s: string, ws': string)
    requires AllSpace(ws) && AllSpace(ws') && Unpadded(s)
    ensures ParseInt(ws + s + ws') == ParseInt(s)
  {
    StripPadding(ws, s, ws');
    StripUnpadded(s);
  }

  lemma IntToStringUnpadded(n: int)
    ensures Unpadded(IntToString(n))
  {
  }

  lemma ParseIntPadded(ws: string, n: int, ws': string)
    requires AllSpace(ws) && AllSpace(ws')
    ensures ParseInt(ws + IntToString(n) + ws') == Some(n)
  {
    IntToStringUnpadded(n);
    ParsePadded(ws, IntToString(n), ws');
    IntRoundTrip(n);
  }
}
