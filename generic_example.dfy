/**
 * A worked example of the generic variant of `buildEntries`: a heading with
 * a place, a line with a degree and a date, and a list of coursework become
 * one entry.
 */
module GenericExample {
  import opened Opt
  import opened JsText
  import opened Patterns
  import opened Tree
  import opened Entries

  const Title: string := "Example University,"
  const Place: string := " Springfield, USA"
  const Heading: string := Title + Place

  /** Two commas: no suffix LOCATION_RE accepts can hold both. */
  lemma TwoCommas(s: string, a: nat, b: nat)
    requires a < b < |s| && s[a] == ',' && s[b] == ','
    ensures !IsLocation(s)
  {
    forall k | 0 < k < |s| - 1 && s[k] == ','
      ensures !(AllLocationChars(s[..k]) && AllLocationChars(s[k + 1..]))
    {
      if k < b {
        assert s[k + 1..][b - k - 1] == ',';
      } else {
        assert s[..k][a] == ',';
      }
    }
  }

  /** The place is the one suffix to split off. */
  lemma PlaceIsLocation()
    ensures IsLocation(Place)
  {
    var left := " Springfield";
    var right := " USA";
    assert Place == left + "," + right;
    assert AllLocationChars(left);
    assert AllLocationChars(right);
    assert Place[..12] == left && Place[13..] == right;
  }

  lemma HeadingPieces()
    ensures Heading[19..] == Place && Heading[..19] == Title
    ensures Heading[18] == ',' && Heading[31] == ','
  {
  }

  lemma NoEarlierLocation()
    ensures forall j :: 0 <= j < 19 ==> !IsLocation(Heading[j..])
  {
    HeadingPieces();
    forall j | 0 <= j < 19 ensures !IsLocation(Heading[j..]) {
      TwoCommas(Heading[j..], 18 - j, 31 - j);
    }
  }

  lemma TrimmedPieces()
    ensures Trim(Title) == "Example University,"
    ensures Trim(Place) == "Springfield, USA"
  {
    TrimOfTrimmed(Title);
    var rest := "Springfield, USA";
    assert Place == " " + rest && Place[1..] == rest;
    TrimOfTrimmed(rest);
  }

  lemma HeadingSplits()
    ensures ParseTitleAndLocation(Heading) == TitleLocation("Example University,", "Springfield, USA")
  {
    HeadingPieces();
    PlaceIsLocation();
    NoEarlierLocation();
    TrimmedPieces();
  }

  lemma HeadingIsTitle()
    ensures IsOpener(P(Heading))
  {
    var pre := "Example ";
    var word := "University";
    assert Title == pre + word + ",";
    assert Heading == pre + (word + ("," + Place));
    assert Heading[8..18] == word;
    assert AsciiLower(word) == "university";
    assert IsTrimmed(Heading);
    TrimOfTrimmed(Heading);
    KeywordMakesTitle(Heading, 0, 8);
  }

  // --- the date -------------------------------------------------------

  const Degree: string := "BSc Computer Science"
  const Date: string := "Jan 2010"
  const Line: string := Degree + " " + Date

  lemma MonthsHaveNoSpace()
    ensures forall m :: 0 <= m < |Months| ==> ' ' !in Months[m]
  {
  }

  /** A month name holds no space, so the month alternative cannot match across the space at `g`. */
  lemma MonthSpanFails(s: string, p: nat, name: string, g: nat, c: nat)
    requires p <= g < c < |s| && s[g] == ' ' && !IsSpace(s[c]) && ' ' !in name
    requires forall q :: p <= q <= c ==> !FourDigitsAt(s, q)
    ensures MonthAt(s, p, name).None?
  {
    if CiAt(s, name, p) {
      CiAtChars(s, name, p);
      assert p + |name| <= g;
    }
  }

  lemma CiAtChars(s: string, name: string, p: nat)
    requires CiAt(s, name, p)
    ensures forall k :: 0 <= k < |name| ==> name[k] == LowerChar(s[p + k])
  {
    forall k | 0 <= k < |name| ensures name[k] == LowerChar(s[p + k]) {
      assert AsciiLower(s[p..p + |name|])[k] == LowerChar(s[p..p + |name|][k]);
    }
  }

  /** No alternative of DATE_RE matches at `p`. */
  lemma {:induction false} NoDateFrom(s: string, p: nat, m: nat, g: nat, c: nat)
    requires p <= g < c < |s| && s[g] == ' ' && !IsSpace(s[c]) && m <= |Months|
    requires forall q :: p <= q <= c ==> !FourDigitsAt(s, q)
    ensures DateFrom(s, p, m) == None
    decreases |Months| - m
  {
    if m < |Months| {
      MonthsHaveNoSpace();
      MonthSpanFails(s, p, Months[m], g, c);
      DateFromSkips(s, p, m);
      NoDateFrom(s, p, m + 1, g, c);
    } else {
      assert !FourDigitsAt(s, p);
    }
  }

  lemma DateFromSkips(s: string, p: nat, m: nat)
    requires p <= |s| && m < |Months|
    requires MonthAt(s, p, Months[m]).None?
    ensures DateFrom(s, p, m) == DateFrom(s, p, m + 1)
  {
  }

  lemma LinePieces()
    ensures |Line| == 29 && Line[20] == ' ' && Line[21] == 'J'
    ensures forall k :: 0 <= k < 22 ==> !IsDigit(Line[k])
    ensures Line[21..] == Date && Line[24..] == " 2010" && Line[..21] == Degree + " "
  {
    assert Line == (Degree + " ") + Date;
  }

  lemma NoDigitNoYear(s: string, c: nat)
    requires c < |s| && forall k :: 0 <= k <= c ==> !IsDigit(s[k])
    ensures forall q :: 0 <= q <= c ==> !FourDigitsAt(s, q)
  {
    forall q | 0 <= q <= c ensures !FourDigitsAt(s, q) {
      assert !IsDigit(s[q]);
    }
  }

  /** The date DATE_RE finds is the month and year, at 21. */
  lemma LineDate()
    ensures MatchDate(Line) == Some(Date)
  {
    LineMonth();
    LineNothingBefore();
    assert LeftmostDateAt(Line, 21);
    assert Line[21..29] == Date;
  }

  /** A date match of eight characters starts at 21. */
  lemma LineMonth()
    ensures DateMatchAt(Line, 21) == Some(8)
  {
    LinePieces();
    var tail := " 2010";
    assert LeadingSpaces(tail) == 1 by {
      assert tail[1..] == "2010";
    }
    assert FourDigitsAt(Line, 25);
    assert CiAt(Line, "jan", 21) by {
      assert Line[21..24] == Date[..3] == "Jan";
      assert AsciiLower("Jan") == "jan";
    }
    assert MonthAt(Line, 21, Months[0]) == Some(8);
  }

  /** No date match starts before 21. */
  lemma LineNothingBefore()
    ensures forall p :: 0 <= p < 21 ==> DateMatchAt(Line, p).None?
  {
    LinePieces();
    NoDigitNoYear(Line, 21);
    forall p | 0 <= p < 21 ensures DateMatchAt(Line, p).None? {
      NoDateFrom(Line, p, 0, 20, 21);
    }
  }

  /** The first occurrence of the date text is where DATE_RE found it. */
  lemma RemoveDate()
    ensures RemoveFirst(Line, Date) == Degree + " "
  {
    LinePieces();
    assert OccursAt(Line, Date, 21);
    forall j | 0 <= j < 21 ensures !OccursAt(Line, Date, j) {
      if j + 8 <= |Line| {
        assert Line[j..j + 8][0] == Line[j] != 'J';
      }
    }
    assert Line[29..] == [];
  }

  lemma DegreeNoDash()
    ensures DashesToSpaces(Degree + " ") == Degree + " "
  {
    var cut := Degree + " ";
    assert forall k :: 0 <= k < |cut| ==> !IsDash(cut[k]);
  }

  lemma DegreeNoDoubleSpace()
    ensures CollapseSpaces(Degree + " ") == Degree + " "
  {
    assert Degree + " " == ("BSc " + "Computer ") + "Science ";
    SpacedWord("BSc ");
    SpacedWord("Computer ");
    SpacedWord("Science ");
    NoDoubleSpaceJoin("BSc ", "Computer ");
    NoDoubleSpaceJoin("BSc " + "Computer ", "Science ");
  }

  /** A word followed by one space has no two neighbouring spaces. */
  lemma SpacedWord(w: string)
    requires |w| > 0 && w[|w| - 1] == ' ' && forall k :: 0 <= k < |w| - 1 ==> !IsSpace(w[k])
    ensures NoDoubleSpace(w)
  {
  }

  lemma NoDoubleSpaceJoin(a: string, b: string)
    requires NoDoubleSpace(a) && NoDoubleSpace(b) && b != [] && !IsSpace(b[0])
    ensures NoDoubleSpace(a + b)
  {
    var s := a + b;
    assert forall k :: 0 <= k < |a| ==> s[k] == a[k];
    assert forall k :: |a| <= k < |s| ==> s[k] == b[k - |a|];
  }

  lemma DegreeTrim()
    ensures Trim(Degree + " ") == Degree
  {
    var cut := Degree + " ";
    assert cut[..|cut| - 1] == Degree;
    TrimOfTrimmed(Degree);
  }

  lemma CleanDegree()
    ensures Trim(CollapseSpaces(DashesToSpaces(Degree + " "))) == Degree
  {
    DegreeNoDash();
    DegreeNoDoubleSpace();
    DegreeTrim();
  }

  /** Cutting the date out, the clean-up leaves the degree. */
  lemma LineRest()
    ensures DateResidual(Line, Date) == Degree
  {
    RemoveDate();
    CleanDegree();
  }

  const Coursework: seq<string> := ["Relevant coursework A", "Relevant coursework B"]

  lemma CourseworkTrimmed()
    ensures TrimAll(Coursework) == Coursework
  {
    TrimOfTrimmed(Coursework[0]);
    TrimOfTrimmed(Coursework[1]);
  }

  lemma CourseworkKept()
    ensures Contribution(UL(Coursework)) == [List(Coursework)]
  {
    TrimmedItemsFilter(Coursework);
    CourseworkTrimmed();
    assert Coursework[1..][1..] == [];
    assert NonEmpty(Coursework) == Coursework;
    assert TrimmedItems(Coursework) == Coursework;
  }

  lemma DegreeKept()
    ensures Contribution(P(Degree)) == [Text(Degree)]
  {
    TrimOfTrimmed(Degree);
  }

  lemma HeadingLine()
    ensures IsOpener(P(Heading)) && ParseTitleAndLocation(Trim(Heading)) == TitleLocation("Example University,", "Springfield, USA")
  {
    HeadingIsTitle();
    TrimOfTrimmed(Heading);
    HeadingSplits();
  }

  lemma DateLine()
    ensures MatchDate(Trim(Line)) == Some(Date) && DateResidual(Trim(Line), Date) == Degree
  {
    LinePieces();
    assert IsTrimmed(Line);
    TrimOfTrimmed(Line);
    LineDate();
    LineRest();
  }

  /**
   * The generic variant on the three children: one entry titled by the
   * heading less its place (the comma before the place stays), dated by
   * the month and year of the second line, placed at the heading's place,
   * with the rest of the second line and then the coursework list as body.
   */
  lemma ExampleEntry()
    ensures GenericEntries([P(Heading), P(Line), UL(Coursework)]) ==
            [Entry("Example University,", "Jan 2010", "Springfield, USA",
                   [Text("BSc Computer Science"), List(Coursework)])]
  {
    HeadingLine();
    DateLine();
    ExampleBody();
    Instance(Heading, Line, Coursework, "Example University,", "Springfield, USA", Date, Degree,
             [Text("BSc Computer Science"), List(Coursework)]);
  }

  lemma ExampleBody()
    ensures Contribution(P(Degree)) + Contribution(UL(Coursework)) == [Text("BSc Computer Science"), List(Coursework)]
  {
    DegreeKept();
    CourseworkKept();
  }

  /** The scenario with its parts named. */
  lemma Instance(heading: string, line: string, raw: seq<string>, title: string, place: string, date: string, rest: string,
                 body: seq<BodyItem>)
    requires IsOpener(P(heading)) && ParseTitleAndLocation(Trim(heading)) == TitleLocation(title, place) && place != []
    requires MatchDate(Trim(line)) == Some(date) && DateResidual(Trim(line), date) == rest
    requires Contribution(P(rest)) + Contribution(UL(raw)) == body
    ensures GenericEntries([P(heading), P(line), UL(raw)]) == [Entry(title, date, place, body)]
  {
    GenericScenario(heading, line, raw);
  }
}
