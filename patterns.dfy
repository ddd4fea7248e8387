/**
 * The three fixed regular expressions of script.js (lines 12-14), each
 * written out by hand as the matcher a backtracking ECMAScript engine
 * runs for it: ORG_RE, which recognises an entry heading; LOCATION_RE,
 * which splits a trailing "place, place" off a heading; and DATE_RE, which
 * finds a month-and-year or a year.
 */
module Patterns {
  import opened Opt
  import opened JsText

  // ---------------------------------------------------------------------
  // ORG_RE and isTitleCandidate
  // ---------------------------------------------------------------------

  /** The alternatives of ORG_RE, lower-cased; the regex is case-insensitive. */
  const OrgKeywords: seq<string> :=
    ["university", "high school", "technical", "institute", "center", "college", "engineer",
     "supervisor", "company", "oil", "gas", "production", "department", "units", "co."]

  /**
   * `isTitleCandidate`: ORG_RE matches somewhere in `text`, that is, the
   * lower-cased text contains one of the keywords. A false positive ("an
   * oil painting") is part of the heuristic.
   */
  predicate IsTitleCandidate(text: string) {
    exists k :: 0 <= k < |OrgKeywords| && Contains(AsciiLower(text), OrgKeywords[k])
  }

  /** A keyword occurring at a known position makes `text` a heading. */
  lemma KeywordMakesTitle(text: string, n: nat, i: nat)
    requires n < |OrgKeywords|
    requires CiAt(text, OrgKeywords[n], i)
    ensures IsTitleCandidate(text)
  {
    var k := OrgKeywords[n];
    AsciiLowerSlice(text, i, i + |k|);
    assert OccursAt(AsciiLower(text), k, i);
  }

  /** Conversely, a title candidate holds some keyword, in some letter case, at some position. */
  lemma TitleHasKeyword(text: string)
    requires IsTitleCandidate(text)
    ensures exists n: nat, i: nat :: n < |OrgKeywords| && CiAt(text, OrgKeywords[n], i)
  {
    var n: nat :| n < |OrgKeywords| && Contains(AsciiLower(text), OrgKeywords[n]);
    var k := OrgKeywords[n];
    var i: nat :| i <= |AsciiLower(text)| && OccursAt(AsciiLower(text), k, i);
    AsciiLowerSlice(text, i, i + |k|);
    assert CiAt(text, k, i);
  }

  // ---------------------------------------------------------------------
  // LOCATION_RE and parseTitleAndLocation
  // ---------------------------------------------------------------------

  /** `[A-Za-z\-\s]` */
  predicate IsLocationChar(c: char) {
    IsAsciiLetter(c) || c == '-' || IsSpace(c)
  }

  predicate AllLocationChars(s: string) {
    forall k :: 0 <= k < |s| ==> IsLocationChar(s[k])
  }

  /**
   * `s` as a whole matches `[A-Za-z\-\s]+,\s*[A-Za-z\-\s]+`: exactly one
   * comma with a non-empty run of letters, hyphens and whitespace on each
   * side (the `\s*` after the comma is absorbed by the second class).
   */
  predicate IsLocation(s: string) {
    exists k :: 0 < k < |s| - 1 && s[k] == ',' && AllLocationChars(s[..k]) && AllLocationChars(s[k + 1..])
  }

  /** The leftmost position at or after `from` where LOCATION_RE, anchored by `$`, matches. */
  function LocationStart(s: string, from: nat): (r: Option<nat>)
    requires from <= |s|
    ensures r.Some? ==> from <= r.value <= |s| && IsLocation(s[r.value..])
    ensures r.Some? ==> forall j :: from <= j < r.value ==> !IsLocation(s[j..])
    ensures r.None? ==> forall j :: from <= j <= |s| ==> !IsLocation(s[j..])
    decreases |s| - from
  {
    if IsLocation(s[from..]) then Some(from)
    else if from == |s| then None
    else LocationStart(s, from + 1)
  }

  datatype TitleLocation = TitleLocation(title: string, location: string)

  lemma LocationNotBlank(s: string)
    requires IsLocation(s)
    ensures Trim(s) != []
  {
    var k :| 0 < k < |s| - 1 && s[k] == ',' && AllLocationChars(s[..k]) && AllLocationChars(s[k + 1..]);
    assert !IsSpace(s[k]);
  }

  /**
   * `parseTitleAndLocation`: the location is the longest suffix LOCATION_RE
   * accepts, trimmed, and the title is what precedes it, trimmed; with no
   * such suffix the location is empty and the title is the trimmed text.
   */
  function ParseTitleAndLocation(text: string): (r: TitleLocation)
    ensures IsTrimmed(r.title) && IsTrimmed(r.location)
    ensures r.location != [] <==> exists i :: 0 <= i <= |text| && IsLocation(text[i..])
    ensures forall i :: 0 <= i <= |text| && IsLocation(text[i..]) &&
                        (forall j :: 0 <= j < i ==> !IsLocation(text[j..])) ==>
                        r == TitleLocation(Trim(text[..i]), Trim(text[i..]))
    ensures (forall i :: 0 <= i <= |text| ==> !IsLocation(text[i..])) ==> r == TitleLocation(Trim(text), [])
  {
    match LocationStart(text, 0)
    case Some(i) =>
      LocationNotBlank(text[i..]);
      TitleLocation(Trim(text[..i]), Trim(text[i..]))
    case None => TitleLocation(Trim(text), [])
  }

  /** One more letter, hyphen or whitespace character in front of a location is still a location. */
  lemma LocationExtends(text: string, i: nat)
    requires 0 < i <= |text| && IsLocation(text[i..])
    ensures text[i - 1] != ',' && IsLocationChar(text[i - 1]) ==> IsLocation(text[i - 1..])
  {
    if text[i - 1] != ',' && IsLocationChar(text[i - 1]) {
      assert text[i - 1..] == [text[i - 1]] + text[i..];
      LocationCons(text[i - 1], text[i..]);
    }
  }

  lemma LocationCons(c: char, s: string)
    requires IsLocation(s) && c != ',' && IsLocationChar(c)
    ensures IsLocation([c] + s)
  {
    var k :| 0 < k < |s| - 1 && s[k] == ',' && AllLocationChars(s[..k]) && AllLocationChars(s[k + 1..]);
    var t := [c] + s;
    assert t[k + 1] == ',';
    assert t[..k + 1] == [c] + s[..k];
    assert t[1..] == s;
    assert t[k + 2..] == t[1..][k + 1..];
  }

  /**
   * The title ends exactly where the location begins: the character just
   * before the location is a comma or a character outside
   * `[A-Za-z\-\s]`, and it is kept in the title. So in
   * "Example University, Springfield, USA" the title keeps its comma.
   */
  lemma TitleEndsBeforeLocation(text: string, i: nat)
    requires 0 < i <= |text| && IsLocation(text[i..])
    requires forall j :: 0 <= j < i ==> !IsLocation(text[j..])
    ensures text[i - 1] == ',' || !IsLocationChar(text[i - 1])
    ensures ParseTitleAndLocation(text).title == Trim(text[..i])
    ensures Trim(text[..i]) != [] && Trim(text[..i])[|Trim(text[..i])| - 1] == text[i - 1]
  {
    PrecedesLocation(text, i);
    TitleKeepsLast(text, i);
  }

  lemma PrecedesLocation(text: string, i: nat)
    requires 0 < i <= |text| && IsLocation(text[i..]) && !IsLocation(text[i - 1..])
    ensures text[i - 1] == ',' || !IsLocationChar(text[i - 1])
  {
    LocationExtends(text, i);
  }

  lemma TitleKeepsLast(text: string, i: nat)
    requires 0 < i <= |text| && (text[i - 1] == ',' || !IsLocationChar(text[i - 1]))
    ensures Trim(text[..i]) != [] && Trim(text[..i])[|Trim(text[..i])| - 1] == text[i - 1]
  {
    assert !IsSpace(text[i - 1]);
    var pre := text[..i];
    assert pre[|pre| - 1] == text[i - 1];
    TrimKeepsLast(pre);
  }

  // ---------------------------------------------------------------------
  // DATE_RE
  // ---------------------------------------------------------------------

  /** The month alternatives of DATE_RE, lower-cased, in the order the regex tries them. */
  const Months: seq<string> :=
    ["jan", "feb", "mar", "apr", "may", "jun", "jul", "aug", "sep", "oct", "nov", "dec",
     "january", "february", "march", "april", "may", "june", "july", "august", "september",
     "october", "november", "december"]

  predicate FourDigitsAt(s: string, p: nat) {
    p + 4 <= |s| && forall k :: p <= k < p + 4 ==> IsDigit(s[k])
  }

  /** `\b` at `p` when `s[p]` is a word character. */
  predicate BoundaryBefore(s: string, p: nat) {
    p == 0 || (p <= |s| && !IsWordChar(s[p - 1]))
  }

  /** `\b` at `e` when `s[e - 1]` is a word character. */
  predicate BoundaryAfter(s: string, e: nat) {
    e >= |s| || !IsWordChar(s[e])
  }

  /**
   * DATE_RE at `p`, trying its alternatives from the month name at index
   * `m` on: first `(Jan|…|December)\s+\d{4}` for each remaining month name,
   * then the bare year, then the year range; the length of the first match.
   */
  function DateFrom(s: string, p: nat, m: nat): (r: Option<nat>)
    requires p <= |s| && m <= |Months|
    ensures r.Some? ==> p + r.value <= |s| && r.value >= 4
    ensures m == |Months| ==> r == (if YearAt(s, p) then Some(4) else YearRangeAt(s, p))
    decreases |Months| - m
  {
    if m == |Months| then
      if YearAt(s, p) then Some(4) else YearRangeAt(s, p)
    else
      match MonthAt(s, p, Months[m])
      case Some(n) => Some(n)
      case None => DateFrom(s, p, m + 1)
  }

  /**
   * The alternative `name\s+\d{4}` at `p`, case-insensitively: the length of
   * its match.  `\s+` has to take the whole whitespace run, since a digit
   * must follow it.
   */
  function MonthAt(s: string, p: nat, name: string): (r: Option<nat>)
    requires p <= |s|
    ensures r.Some? <==> CiAt(s, name, p) && LeadingSpaces(s[p + |name|..]) > 0 &&
                         FourDigitsAt(s, p + |name| + LeadingSpaces(s[p + |name|..]))
    ensures r.Some? ==> r.value == |name| + LeadingSpaces(s[p + |name|..]) + 4 && p + r.value <= |s|
  {
    if CiAt(s, name, p) then
      var w := LeadingSpaces(s[p + |name|..]);
      if w > 0 && FourDigitsAt(s, p + |name| + w) then Some(|name| + w + 4) else None
    else None
  }

  /** The second alternative, `\b\d{4}\b`. */
  predicate YearAt(s: string, p: nat) {
    FourDigitsAt(s, p) && BoundaryBefore(s, p) && BoundaryAfter(s, p + 4)
  }

  /** The third alternative, `\b\d{4}\s*[–-]\s*(present|\d{4})`: the length of the match. */
  function YearRangeAt(s: string, p: nat): (r: Option<nat>)
    requires p <= |s|
    ensures r.Some? ==> p + r.value <= |s| && r.value >= 4
  {
    if !(FourDigitsAt(s, p) && BoundaryBefore(s, p)) then None
    else
      var d := p + 4 + LeadingSpaces(s[p + 4..]);
      if d < |s| && IsDash(s[d]) then
        var q := d + 1 + LeadingSpaces(s[d + 1..]);
        if CiAt(s, "present", q) then Some(q + 7 - p)
        else if FourDigitsAt(s, q) then Some(q + 4 - p)
        else None
      else None
  }

  /**
   * The year-range alternative can never be the one that matches: wherever
   * it would, the bare year is tried first and matches already, because a
   * space or a dash after the four digits is a word boundary.
   */
  lemma YearRangeNeverWins(s: string, p: nat)
    requires p <= |s| && YearRangeAt(s, p).Some?
    ensures YearAt(s, p)
  {
    var d := p + 4 + LeadingSpaces(s[p + 4..]);
    if d > p + 4 { assert IsSpace(s[p + 4..][0]); }
  }

  /** Length of the DATE_RE match starting at `p`: alternatives in order. */
  function DateMatchAt(s: string, p: nat): (r: Option<nat>)
    requires p <= |s|
    ensures r.Some? ==> p + r.value <= |s| && r.value >= 4
  {
    DateFrom(s, p, 0)
  }

  datatype DateHit = DateHit(start: nat, len: nat)

  /** The leftmost position at or after `from` where DATE_RE matches. */
  function FindDateFrom(s: string, from: nat): (r: Option<DateHit>)
    requires from <= |s|
    ensures r.Some? ==> from <= r.value.start <= |s| && DateMatchAt(s, r.value.start) == Some(r.value.len)
    ensures r.Some? ==> forall j :: from <= j < r.value.start ==> DateMatchAt(s, j).None?
    ensures r.None? ==> forall j :: from <= j <= |s| ==> DateMatchAt(s, j).None?
    decreases |s| - from
  {
    match DateMatchAt(s, from)
    case Some(n) => Some(DateHit(from, n))
    case None =>
      if from == |s| then None
      else
        var r := FindDateFrom(s, from + 1);
        NoDateBefore(s, from, if r.Some? then r.value.start else |s| + 1);
        r
  }

  /** No match at `from` extends a match-free stretch that starts just after it. */
  lemma NoDateBefore(s: string, from: nat, end: nat)
    requires from < |s| && DateMatchAt(s, from).None?
    requires forall j :: from + 1 <= j < end && j <= |s| ==> DateMatchAt(s, j).None?
    ensures forall j :: from <= j < end && j <= |s| ==> DateMatchAt(s, j).None?
  {
  }

  /** DATE_RE matches at `p` and at no earlier position. */
  predicate LeftmostDateAt(text: string, p: nat) {
    p <= |text| && DateMatchAt(text, p).Some? && forall j :: 0 <= j < p ==> DateMatchAt(text, j).None?
  }

  /** `text.match(DATE_RE)`, giving `m[0]`: the text of the leftmost match. */
  function MatchDate(text: string): (r: Option<string>)
    ensures r.None? <==> forall p :: 0 <= p <= |text| ==> DateMatchAt(text, p).None?
    ensures r.Some? ==> exists p: nat :: LeftmostDateAt(text, p) && r.value == text[p..p + DateMatchAt(text, p).value]
    ensures r.Some? ==> |r.value| >= 4
  {
    match FindDateFrom(text, 0)
    case Some(h) =>
      assert LeftmostDateAt(text, h.start);
      Some(text[h.start..h.start + h.len])
    case None => None
  }

  lemma MonthsStartWithLetters()
    ensures forall m :: 0 <= m < |Months| ==> |Months[m]| >= 3 && IsAsciiLetter(Months[m][0])
  {
  }

  lemma {:induction false} MonthFromNeedsLetter(s: string, p: nat, m: nat)
    requires p < |s| && m <= |Months| && !IsAsciiLetter(s[p])
    ensures DateFrom(s, p, m) == (if YearAt(s, p) then Some(4) else YearRangeAt(s, p))
    decreases |Months| - m
  {
    if m < |Months| {
      var name := Months[m];
      MonthsStartWithLetters();
      assert !CiAt(s, name, p) by {
        if p + |name| <= |s| {
          assert AsciiLower(s[p..p + |name|])[0] == LowerChar(s[p]);
        }
      }
      MonthFromNeedsLetter(s, p, m + 1);
    }
  }

  /**
   * A year that opens the text and is followed by a non-word character is
   * the date, whatever follows: "2010 – present" gives "2010", never the
   * range.
   */
  lemma {:induction false} LeadingYearIsTheDate(year: string, rest: string)
    requires |year| == 4 && forall k :: 0 <= k < 4 ==> IsDigit(year[k])
    requires rest == [] || !IsWordChar(rest[0])
    ensures MatchDate(year + rest) == Some(year)
  {
    var s := year + rest;
    assert FourDigitsAt(s, 0);
    assert BoundaryAfter(s, 4) by { if |s| > 4 { assert s[4] == rest[0]; } }
    MonthFromNeedsLetter(s, 0, 0);
    assert DateMatchAt(s, 0) == Some(4);
    assert s[0..4] == year;
  }

  // ---------------------------------------------------------------------
  // The clean-up applied once a date has been taken out
  // ---------------------------------------------------------------------

  lemma TrimKeeps(s: string)
    ensures NoDoubleSpace(s) ==> NoDoubleSpace(Trim(s))
    ensures NoDash(s) ==> NoDash(Trim(s))
  {
    var r := Trim(s);
    TrimSlice(s);
    var i :| SpaceFramed(s, r, i);
    forall k | 0 <= k < |r| ensures r[k] == s[i + k] { }
  }

  /**
   * `text.replace(date, '').replace(/[–-]/g, ' ').replace(/\s{2,}/g, ' ').trim()`:
   * the first occurrence of the date text is cut out (not necessarily where
   * DATE_RE found it), every dash of the whole string becomes a space,
   * whitespace runs collapse and the ends are trimmed.
   */
  function DateResidual(text: string, date: string): (r: string)
    ensures IsTrimmed(r) && NoDoubleSpace(r)
    ensures NoDash(r)
    ensures NonSpace(r) == NonSpace(CollapseSpaces(DashesToSpaces(RemoveFirst(text, date))))
    ensures Words(r) == Words(DashesToSpaces(RemoveFirst(text, date)))
  {
    var d := DashesToSpaces(RemoveFirst(text, date));
    CollapseKeepsNoDash(d);
    var c := CollapseSpaces(d);
    TrimKeeps(c);
    TrimNonSpace(c);
    CollapseKeepsWords(d);
    TrimKeepsWords(c);
    Trim(c)
  }

  lemma {:induction false} TrimNonSpace(s: string)
    ensures NonSpace(Trim(s)) == NonSpace(s)
    decreases |s|
  {
    if s != [] && IsSpace(s[0]) {
      TrimNonSpace(s[1..]);
    } else if s != [] && IsSpace(s[|s| - 1]) {
      var t := s[..|s| - 1];
      TrimNonSpace(t);
      assert s == t + [s[|s| - 1]];
      NonSpaceAppend(t, [s[|s| - 1]]);
    }
  }

  lemma RemoveFirstAtStart(s: string, pat: string)
    requires OccursAt(s, pat, 0)
    ensures RemoveFirst(s, pat) == s[|pat|..]
  {
    assert IndexOf(s, pat) == Some(0);
  }

  /** The clean-up leaves " " followed by a year as just the year. */
  lemma CleanSpaceYear(y: string)
    requires |y| == 4 && forall k :: 0 <= k < 4 ==> IsDigit(y[k])
    ensures Trim(CollapseSpaces(DashesToSpaces(" " + y))) == y
  {
    SpaceYearKeepsDashes(y);
    SpaceYearCollapsed(y);
    assert (" " + y)[1..] == y;
    TrimOfTrimmed(y);
  }

  lemma SpaceYearKeepsDashes(y: string)
    requires |y| == 4 && forall k :: 0 <= k < 4 ==> IsDigit(y[k])
    ensures DashesToSpaces(" " + y) == " " + y
  {
    var cut := " " + y;
    assert forall k :: 0 <= k < |cut| ==> !IsDash(cut[k]);
  }

  lemma SpaceYearCollapsed(y: string)
    requires |y| == 4 && forall k :: 0 <= k < 4 ==> IsDigit(y[k])
    ensures CollapseSpaces(" " + y) == " " + y
  {
    assert NoDoubleSpace(" " + y);
  }

  /**
   * Running the date extraction again on its own residual can find another
   * date: from "2010 2011" the first pass takes "2010" and leaves "2011",
   * which the second pass takes in turn.
   */
  lemma {:induction false} ResidualCanHoldAnotherDate(y1: string, y2: string)
    requires |y1| == 4 && forall k :: 0 <= k < 4 ==> IsDigit(y1[k])
    requires |y2| == 4 && forall k :: 0 <= k < 4 ==> IsDigit(y2[k])
    ensures MatchDate(y1 + " " + y2) == Some(y1)
    ensures DateResidual(y1 + " " + y2, y1) == y2
    ensures MatchDate(y2) == Some(y2)
  {
    var s := y1 + " " + y2;
    assert s == y1 + (" " + y2);
    LeadingYearIsTheDate(y1, " " + y2);
    LeadingYearIsTheDate(y2, []);
    assert y2 + [] == y2;
    assert OccursAt(s, y1, 0);
    RemoveFirstAtStart(s, y1);
    assert s[4..] == " " + y2;
    CleanSpaceYear(y2);
  }
}
