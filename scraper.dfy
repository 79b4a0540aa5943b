/** The club-profile scraper's own copy of the pipeline: its competition
    classifiers, its row normaliser, the keep/skip filter over a competition
    page's records and the fixtures CSV it stores with the club's details. The
    copy differs from the monitor's in several places; the divergence lemmas at
    the end state where. */
module Scraper {
  import opened Wrappers
  import opened Text
  import opened Dates
  import opened Fixtures
  import Monitor

  // ---------------------------------------------------------------------
  // Team names

  /** Every team name the scraper's chain can give, besides "Unknown". */
  const ScraperTeams: seq<string> := [
    "U12 GAA", "U13 GAA", "U14 GAA", "U15 GAA", "U16 GAA", "Minor Hurling GAA",
    "Minor Football GAA", "GAA U21 \"A\" Football", "GAA U21 A Hurling", "Junior A Hurling",
    "Junior A Football", "Junior B Hurling", "Senior Football", "Premier Inter Hurling",
    "Junior B Football", "Senior Hurling", "Womens GAA", "Boys GAA", "U18.5 GAA"]

  /** The team a competition's fixtures belong to: the first rule of the chain
      whose words occur in the lower-cased competition name. */
  function MapTeamName(competition: string): string {
    TeamOf(Lower(competition))
  }

  /** The scraper's rule chain, on a lower-cased competition name. */
  function TeamOf(c: string): string {
    if Contains(c, "fe12") then "U12 GAA"
    else if Contains(c, "fe13") then "U13 GAA"
    else if Contains(c, "fe14") then "U14 GAA"
    else if Contains(c, "fe15") then "U15 GAA"
    else if Contains(c, "fe16") then "U16 GAA"
    else if Contains(c, "fe18") && Contains(c, "hurling") then "Minor Hurling GAA"
    else if Contains(c, "fe18") && Contains(c, "football") then "Minor Football GAA"
    else if Contains(c, "u21 a football") then "GAA U21 \"A\" Football"
    else if Contains(c, "u21 a hurling") then "GAA U21 A Hurling"
    else if Contains(c, "junior a hurling") then "Junior A Hurling"
    else if Contains(c, "junior a football") then "Junior A Football"
    else if Contains(c, "junior b hurling") then "Junior B Hurling"
    else if Contains(c, "senior fc") then "Senior Football"
    else if Contains(c, "premier ihc") || Contains(c, "pihc") then "Premier Inter Hurling"
    else if Contains(c, "division 2 fl") then "Junior A Football"
    else if Contains(c, "division 1 fl") then "Senior Football"
    else if Contains(c, "division 3 fl") then "Junior B Football"
    else if Contains(c, "division 2 hl") then "Junior A Hurling"
    else if Contains(c, "division 1 hl") then "Senior Hurling"
    else if Contains(c, "division 3 hl") then "Junior B Hurling"
    else if Contains(c, "senior football") then "Senior Football"
    else if Contains(c, "premier inter hurling") then "Premier Inter Hurling"
    else if Contains(c, "womens") then "Womens GAA"
    else if Contains(c, "boys clubs") then "Boys GAA"
    else if Contains(c, "u18.5") then "U18.5 GAA"
    else if Contains(c, "red fm") && Contains(c, "hl") then "Junior A Hurling"
    else if Contains(c, "red fm") && Contains(c, "fl") then "Junior A Football"
    else if Contains(c, "mccarthy insurance group") && Contains(c, "fl") then "Junior A Football"
    else if Contains(c, "mccarthy insurance group") && Contains(c, "hl") then "Junior A Hurling"
    else "Unknown"
  }

  /** The chain only ever names one of its teams, or gives "Unknown". */
  lemma TeamNamesListed(competition: string)
    ensures MapTeamName(competition) == "Unknown" || MapTeamName(competition) in ScraperTeams
  {
  }

  /** The under-age codes fe12 to fe16 come before every other rule, the lowest
      code first. */
  lemma UnderageFirst(competition: string)
    ensures var c := Lower(competition);
      (Contains(c, "fe12") ==> MapTeamName(competition) == "U12 GAA") &&
      (!Contains(c, "fe12") && Contains(c, "fe13") ==> MapTeamName(competition) == "U13 GAA") &&
      (!Contains(c, "fe12") && !Contains(c, "fe13") && Contains(c, "fe14") ==>
         MapTeamName(competition) == "U14 GAA") &&
      ((!Contains(c, "fe12") && !Contains(c, "fe13") && !Contains(c, "fe14") &&
        Contains(c, "fe15")) ==> MapTeamName(competition) == "U15 GAA") &&
      ((!Contains(c, "fe12") && !Contains(c, "fe13") && !Contains(c, "fe14") &&
        !Contains(c, "fe15") && Contains(c, "fe16")) ==> MapTeamName(competition) == "U16 GAA")
  {
  }

  /** After the under-age codes, fe18 gives a minor team only together with
      "hurling" (checked first) or "football"; no other rule gives a minor team. */
  lemma MinorNeedsCode(competition: string)
    ensures var c := Lower(competition);
      var underage := Contains(c, "fe12") || Contains(c, "fe13") || Contains(c, "fe14") ||
        Contains(c, "fe15") || Contains(c, "fe16");
      (MapTeamName(competition) == "Minor Hurling GAA" <==>
         !underage && Contains(c, "fe18") && Contains(c, "hurling")) &&
      (MapTeamName(competition) == "Minor Football GAA" <==>
         !underage && Contains(c, "fe18") && !Contains(c, "hurling") && Contains(c, "football"))
  {
  }

  /** The chain reads the competition name case-insensitively. */
  lemma MapTeamNameIgnoresCase(competition: string)
    ensures MapTeamName(Lower(competition)) == MapTeamName(competition)
  {
    LowerIdempotent(competition);
  }

  // ---------------------------------------------------------------------
  // Event type

  /** The kind of event a competition is. */
  function EventType(competition: string): string {
    EventOf(Lower(competition))
  }

  /** The scraper's event rules, on a lower-cased competition name. */
  function EventOf(c: string): string {
    if Contains(c, "championship") || Contains(c, "final") then "Championship"
    else if Contains(c, "cup") then "Cup"
    else "League"
  }

  /** A championship is named as one or is a final, a cup is named as one, and
      everything else is a league: the scraper never says "Other". */
  lemma EventTypeMeaning(competition: string)
    ensures var c := Lower(competition);
      var championship := Contains(c, "championship") || Contains(c, "final");
      (EventType(competition) == "Championship" <==> championship) &&
      (EventType(competition) == "Cup" <==> !championship && Contains(c, "cup")) &&
      (EventType(competition) == "League" <==> !championship && !Contains(c, "cup")) &&
      EventType(competition) != "Other"
  {
  }

  // ---------------------------------------------------------------------
  // One record to one fixture

  /** A four-character time with a colon, such as "7:30", gets a leading zero;
      every other time is kept as it is. */
  function PaddedTime(time: string): string {
    if |time| == 4 && ':' in time then "0" + time else time
  }

  /** The other side, when one side is exactly the club; "Unknown" otherwise. */
  function Opponent(home: string, away: string): string {
    if home == ClubName then away
    else if away == ClubName then home
    else "Unknown"
  }

  /** Home only for the club's home fixture at its own venue, Away when the club
      is the away side, Neutral otherwise. */
  function Ground(home: string, away: string, venue: string): string {
    if home == ClubName && venue == ClubName then "Home"
    else if away == ClubName then "Away"
    else "Neutral"
  }

  /** The CSV fixture for a record, or None when its date does not read as
      "DD Mon YYYY". */
  function ProcessFixture(f: RawFixture): Option<Fixture> {
    match ParseDayMonYear(f.date)
    case None => None
    case Some(d) =>
      Some(Fixture(FormatDate(d), PaddedTime(f.time), f.venue,
                   Ground(f.home, f.away, f.venue), f.referee, MapTeamName(f.competition),
                   f.competition, ClubName, Opponent(f.home, f.away),
                   EventType(f.competition)))
  }

  /** A record gives a fixture exactly when its date reads; the fixture keeps
      the venue, referee and competition as scraped, is always the club's, and
      classifies the competition by the scraper's own rules. */
  lemma ProcessFixtureMeaning(f: RawFixture)
    ensures ProcessFixture(f).Some? <==> ParseDayMonYear(f.date).Some?
    ensures ProcessFixture(f).Some? ==>
      var r := ProcessFixture(f).value;
      r.date == FormatDate(ParseDayMonYear(f.date).value) && |r.date| == 10 &&
      r.venue == f.venue && r.referee == f.referee && r.competition == f.competition &&
      r.clubName == ClubName && r.team == MapTeamName(f.competition) &&
      r.eventType == EventType(f.competition)
  {
  }

  /** A record dated with the "DD Mon YYYY" text of a valid date becomes a
      fixture dated DD/MM/YYYY with that date. */
  lemma ProcessFixtureOfText(f: RawFixture, d: Date)
    requires ValidDate(d) && f.date == DayMonYearText(d)
    ensures ProcessFixture(f).Some? && ProcessFixture(f).value.date == FormatDate(d)
  {
    ParseDayMonYearText(d);
  }

  /** Only a four-character time with a colon changes, and it becomes five
      characters long. */
  lemma PaddedTimeMeaning(time: string)
    ensures PaddedTime(time) != time <==> |time| == 4 && ':' in time
    ensures PaddedTime(time) != time ==> |PaddedTime(time)| == 5 && PaddedTime(time)[1..] == time
  {
  }

  /** Ground and opponent depend on exact equality with the club's name: the
      club's home fixture at its own venue is Home against the away side, an
      away fixture is Away against the home side, and anything else is Neutral,
      against "Unknown" when neither side is exactly the club. */
  lemma OrientationMeaning(f: RawFixture)
    requires ProcessFixture(f).Some?
    ensures var r := ProcessFixture(f).value;
      (r.ground == "Home" <==> f.home == ClubName && f.venue == ClubName) &&
      (r.ground == "Away" <==> !(f.home == ClubName && f.venue == ClubName) && f.away == ClubName) &&
      (r.ground == "Neutral" <==> !(f.home == ClubName && f.venue == ClubName) && f.away != ClubName) &&
      (f.home == ClubName ==> r.opponent == f.away) &&
      (f.home != ClubName && f.away == ClubName ==> r.opponent == f.home) &&
      (f.home != ClubName && f.away != ClubName ==> r.opponent == "Unknown")
  {
  }

  // ---------------------------------------------------------------------
  // The competition page's keep/skip filter

  /** Words that mark a rugby fixture, in a competition or venue name. */
  const RugbyIndicators: seq<string> := ["rfc", "rugby", "rugba\U{ED}", "munster bowl", "boys clubs"]

  /** A rugby indicator occurs in the lower-cased competition or venue. */
  predicate IsRugby(f: RawFixture) {
    exists k :: 0 <= k < |RugbyIndicators| &&
      (Contains(Lower(f.competition), RugbyIndicators[k]) ||
       Contains(Lower(f.venue), RugbyIndicators[k]))
  }

  /** One of the sides is (or contains) the club. */
  predicate ClubPlays(f: RawFixture) {
    Contains(f.home, ClubName) || Contains(f.away, ClubName)
  }

  /** A record the filter keeps: the club plays, it is not rugby, and its date
      reads and is not before today. */
  predicate Kept(f: RawFixture, today: Date) {
    ClubPlays(f) && !IsRugby(f) &&
    ParseDayMonYear(f.date).Some? && !Before(ParseDayMonYear(f.date).value, today)
  }

  /** What one record contributes: its fixture when the filter keeps it. */
  function Yield(f: RawFixture, today: Date): Option<Fixture> {
    if Kept(f, today) then ProcessFixture(f) else None
  }

  /** A record contributes exactly when the filter keeps it, and then it
      contributes its processed fixture. */
  lemma YieldMeaning(f: RawFixture, today: Date)
    ensures Yield(f, today).Some? <==> Kept(f, today)
    ensures Yield(f, today).Some? ==> Yield(f, today) == ProcessFixture(f)
  {
  }

  /** Each record's contribution, in page order. */
  function Contributions(records: seq<RawFixture>, today: Date): (c: seq<Option<Fixture>>)
    ensures |c| == |records|
    ensures forall i :: 0 <= i < |records| ==> c[i] == Yield(records[i], today)
  {
    seq(|records|, i requires 0 <= i < |records| => Yield(records[i], today))
  }

  /** The values present among some options, in order. */
  function Somes<T>(opts: seq<Option<T>>): seq<T> {
    if opts == [] then []
    else
      var last := opts[|opts| - 1];
      Somes(opts[..|opts| - 1]) + (if last.Some? then [last.value] else [])
  }

  /** Every present value is kept. */
  lemma {:induction false} SomesComplete<T>(opts: seq<Option<T>>)
    ensures forall i :: 0 <= i < |opts| && opts[i].Some? ==> opts[i].value in Somes(opts)
  {
    if opts != [] {
      var init := opts[..|opts| - 1];
      SomesComplete(init);
      forall i | 0 <= i < |init| ensures opts[i] == init[i] { }
    }
  }

  /** Every kept value was present. */
  lemma {:induction false} SomesSound<T>(opts: seq<Option<T>>)
    ensures forall x :: x in Somes(opts) ==> exists i :: 0 <= i < |opts| && opts[i] == Some(x)
  {
    if opts != [] {
      var init := opts[..|opts| - 1];
      SomesSound(init);
      forall x | x in Somes(opts) ensures exists i :: 0 <= i < |opts| && opts[i] == Some(x) {
        if x in Somes(init) {
          var i :| 0 <= i < |init| && init[i] == Some(x);
          assert opts[i] == init[i];
        } else {
          assert opts[|opts| - 1] == Some(x);
        }
      }
    }
  }

  /** The fixtures a competition page yields: each kept record's fixture, in page
      order. */
  function Selected(records: seq<RawFixture>, today: Date): seq<Fixture> {
    Somes(Contributions(records, today))
  }

  /** The filter loop over a competition page's records. */
  method CompetitionFixtures(records: seq<RawFixture>, today: Date)
    returns (fixtures: seq<Fixture>)
    ensures fixtures == Selected(records, today)
  {
    ghost var c := Contributions(records, today);
    fixtures := [];
    for i := 0 to |records|
      invariant fixtures == Somes(c[..i])
    {
      var f := records[i];
      assert c[..i + 1][..i] == c[..i];
      if !ClubPlays(f) {
        continue;
      }
      if IsRugby(f) {
        continue;
      }
      match ParseDayMonYear(f.date) {
        case None =>
          continue;
        case Some(d) =>
          if Before(d, today) {
            continue;
          }
      }
      var data := ProcessFixture(f);
      assert data == c[i];
      if data.Some? {
        fixtures := fixtures + [data.value];
      }
    }
    assert c[..|records|] == c;
  }

  /** Every kept record's fixture is among those the page yields. */
  lemma SelectedComplete(records: seq<RawFixture>, today: Date)
    ensures forall i :: 0 <= i < |records| && Kept(records[i], today) ==>
      ProcessFixture(records[i]).Some? && ProcessFixture(records[i]).value in Selected(records, today)
  {
    var c := Contributions(records, today);
    SomesComplete(c);
    forall i | 0 <= i < |records| && Kept(records[i], today)
      ensures ProcessFixture(records[i]).Some? && ProcessFixture(records[i]).value in Selected(records, today)
    {
      YieldMeaning(records[i], today);
      assert c[i] == ProcessFixture(records[i]);
    }
  }

  /** Every fixture the page yields is the processed fixture of a kept record. */
  lemma SelectedSound(records: seq<RawFixture>, today: Date)
    ensures forall r :: r in Selected(records, today) ==>
      exists i :: 0 <= i < |records| && Kept(records[i], today) && ProcessFixture(records[i]) == Some(r)
  {
    var c := Contributions(records, today);
    SomesSound(c);
    forall r | r in Selected(records, today)
      ensures exists i ::
        0 <= i < |records| && Kept(records[i], today) && ProcessFixture(records[i]) == Some(r)
    {
      var i :| 0 <= i < |c| && c[i] == Some(r);
      YieldMeaning(records[i], today);
    }
  }

  /** A kept record never has the "boys clubs" competition, since that is a
      rugby indicator: the "Boys GAA" team never comes from a competition page. */
  lemma NoBoysTeamSelected(records: seq<RawFixture>, today: Date)
    ensures forall r :: r in Selected(records, today) ==> r.team != "Boys GAA"
  {
    SelectedSound(records, today);
    forall r | r in Selected(records, today) ensures r.team != "Boys GAA" {
      var i :| 0 <= i < |records| && Kept(records[i], today) && ProcessFixture(records[i]) == Some(r);
      if r.team == "Boys GAA" {
        BoysTeamIsRugby(records[i]);
      }
    }
  }

  /** Only a "boys clubs" competition gets the "Boys GAA" team. */
  lemma BoysTeamIsRugby(f: RawFixture)
    requires MapTeamName(f.competition) == "Boys GAA"
    ensures IsRugby(f)
  {
    assert Contains(Lower(f.competition), RugbyIndicators[4]);
  }

  // ---------------------------------------------------------------------
  // The fixtures CSV stored with the club's details

  /** One CSV line per fixture, in order. */
  function CsvLinesOf(fixtures: seq<Fixture>): seq<string> {
    if fixtures == [] then []
    else CsvLinesOf(fixtures[..|fixtures| - 1]) + [CsvLine(fixtures[|fixtures| - 1])]
  }

  /** The fixtures CSV: the header line, then one line per fixture. */
  function FixturesCsv(fixtures: seq<Fixture>): string {
    Join([HeaderLine] + CsvLinesOf(fixtures), "\n")
  }

  /** The club's fixture entries: the CSV text and the competition name it is
      filed under. */
  datatype ClubFixtures = ClubFixtures(fixtures: string, competitionName: string)

  /** Builds the club's fixture entries; a club without fixtures gets none. */
  method AssembleFixtures(fixtures: seq<Fixture>) returns (entry: Option<ClubFixtures>)
    ensures fixtures == [] ==> entry == None
    ensures fixtures != [] ==>
      entry == Some(ClubFixtures(FixturesCsv(fixtures), "Ballincollig Fixtures"))
  {
    if fixtures == [] {
      return None;
    }
    var csvLines := [HeaderLine];
    var i := 0;
    while i < |fixtures|
      invariant 0 <= i <= |fixtures|
      invariant csvLines == [HeaderLine] + CsvLinesOf(fixtures[..i])
    {
      assert fixtures[..i + 1][..i] == fixtures[..i];
      csvLines := csvLines + [CsvLine(fixtures[i])];
      i := i + 1;
    }
    assert fixtures[..i] == fixtures;
    entry := Some(ClubFixtures(Join(csvLines, "\n"), "Ballincollig Fixtures"));
  }

  /** Line i of the CSV lines is fixture i's. */
  lemma {:induction false} CsvLinesOfShape(fixtures: seq<Fixture>)
    ensures |CsvLinesOf(fixtures)| == |fixtures|
    ensures forall i :: 0 <= i < |fixtures| ==> CsvLinesOf(fixtures)[i] == CsvLine(fixtures[i])
  {
    if fixtures != [] {
      CsvLinesOfShape(fixtures[..|fixtures| - 1]);
    }
  }

  /** No field of any fixture holds a line break. */
  predicate SingleLine(fixtures: seq<Fixture>) {
    forall i, k :: 0 <= i < |fixtures| && 0 <= k < |Fields(fixtures[i])| ==>
      '\n' !in Fields(fixtures[i])[k]
  }

  /** When no field holds a line break, the CSV splits back into the header and
      the fixtures' lines, one more line than there are fixtures. */
  lemma CsvTextLines(fixtures: seq<Fixture>)
    requires SingleLine(fixtures)
    ensures var lines := Split(FixturesCsv(fixtures), '\n');
      |lines| == |fixtures| + 1 && lines[0] == HeaderLine &&
      forall i :: 0 <= i < |fixtures| ==> lines[i + 1] == CsvLine(fixtures[i])
  {
    var lines := [HeaderLine] + CsvLinesOf(fixtures);
    CsvLinesOfShape(fixtures);
    HeaderLineKeepsOut();
    forall k | 0 <= k < |lines| ensures '\n' !in lines[k] {
      if k > 0 {
        JoinAvoids(Fields(fixtures[k - 1]), ",", '\n');
      }
    }
    SplitJoin(lines, '\n');
  }

  // ---------------------------------------------------------------------
  // Where the scraper and the monitor disagree

  /** Without the digit 1 or the letters u, j, s and p, none of the age, grade
      and intermediate rules of the scraper's chain applies. */
  lemma ScraperGradesMiss(c: string)
    requires '1' !in c && 'u' !in c && 'j' !in c && 's' !in c && 'p' !in c
    ensures !Contains(c, "fe12") && !Contains(c, "fe13") && !Contains(c, "fe14")
    ensures !Contains(c, "fe15") && !Contains(c, "fe16") && !Contains(c, "fe18")
    ensures !Contains(c, "u21 a football") && !Contains(c, "u21 a hurling")
    ensures !Contains(c, "junior a hurling") && !Contains(c, "junior a football")
    ensures !Contains(c, "junior b hurling") && !Contains(c, "senior fc")
    ensures !Contains(c, "premier ihc") && !Contains(c, "pihc")
  {
    MissingCharNotContained(c, "fe12", '1');
    MissingCharNotContained(c, "fe13", '1');
    MissingCharNotContained(c, "fe14", '1');
    MissingCharNotContained(c, "fe15", '1');
    MissingCharNotContained(c, "fe16", '1');
    MissingCharNotContained(c, "fe18", '1');
    MissingCharNotContained(c, "u21 a football", 'u');
    MissingCharNotContained(c, "u21 a hurling", 'u');
    MissingCharNotContained(c, "junior a hurling", 'j');
    MissingCharNotContained(c, "junior a football", 'j');
    MissingCharNotContained(c, "junior b hurling", 'j');
    MissingCharNotContained(c, "senior fc", 's');
    MissingCharNotContained(c, "premier ihc", 'p');
    MissingCharNotContained(c, "pihc", 'p');
  }

  /** Without the letters v, s, p, w, b and u, none of the division, senior,
      women's, boys' and U18.5 rules of the scraper's chain applies. */
  lemma ScraperLeaguesMiss(c: string)
    requires 'v' !in c && 's' !in c && 'p' !in c && 'w' !in c && 'b' !in c && 'u' !in c
    ensures !Contains(c, "division 2 fl") && !Contains(c, "division 1 fl")
    ensures !Contains(c, "division 3 fl") && !Contains(c, "division 2 hl")
    ensures !Contains(c, "division 1 hl") && !Contains(c, "division 3 hl")
    ensures !Contains(c, "senior football") && !Contains(c, "premier inter hurling")
    ensures !Contains(c, "womens") && !Contains(c, "boys clubs") && !Contains(c, "u18.5")
  {
    MissingCharNotContained(c, "division 2 fl", 'v');
    MissingCharNotContained(c, "division 1 fl", 'v');
    MissingCharNotContained(c, "division 3 fl", 'v');
    MissingCharNotContained(c, "division 2 hl", 'v');
    MissingCharNotContained(c, "division 1 hl", 'v');
    MissingCharNotContained(c, "division 3 hl", 'v');
    MissingCharNotContained(c, "senior football", 's');
    MissingCharNotContained(c, "premier inter hurling", 'p');
    MissingCharNotContained(c, "womens", 'w');
    MissingCharNotContained(c, "boys clubs", 'b');
    MissingCharNotContained(c, "u18.5", 'u');
  }

  /** The scraper's chain reaches its Red FM hurling rule when none of the
      earlier rules' words can occur. */
  lemma ScraperRedFmRule(c: string)
    requires '1' !in c && 'u' !in c && 'j' !in c && 's' !in c && 'p' !in c && 'v' !in c
    requires 'w' !in c && 'b' !in c
    requires Contains(c, "red fm") && Contains(c, "hl")
    ensures TeamOf(c) == "Junior A Hurling"
  {
    ScraperGradesMiss(c);
    ScraperLeaguesMiss(c);
  }

  /** The monitor's chain reaches its Red FM rule when neither an age code nor
      "mccarthy" can occur. */
  lemma MonitorRedFmRule(c: string)
    requires '1' !in c && 'c' !in c && Contains(c, "red fm")
    ensures Monitor.TeamOf(c) == "Premier Inter Hurling"
  {
    MissingCharNotContained(c, "fe14", '1');
    MissingCharNotContained(c, "fe16", '1');
    MissingCharNotContained(c, "fe18", '1');
    MissingCharNotContained(c, "mccarthy insurance", 'c');
    MissingCharNotContained(c, "mccarthy", 'c');
  }

  lemma RedFmLower()
    ensures Lower("Red FM HL") == "red fm hl"
  {
  }

  lemma RedFmWords()
    ensures Contains("red fm hl", "red fm") && Contains("red fm hl", "hl")
  {
  }

  lemma RedFmLacks()
    ensures '1' !in "red fm hl" && 'u' !in "red fm hl" && 'j' !in "red fm hl"
    ensures 's' !in "red fm hl" && 'p' !in "red fm hl"
  {
  }

  lemma RedFmLacksMore()
    ensures 'v' !in "red fm hl" && 'w' !in "red fm hl" && 'b' !in "red fm hl"
    ensures 'c' !in "red fm hl"
  {
  }

  /** A "Red FM" hurling league is Junior A Hurling to the scraper but Premier
      Inter Hurling to the monitor. */
  lemma RedFmDivergence()
    ensures MapTeamName("Red FM HL") == "Junior A Hurling"
    ensures Monitor.MapTeamName("Red FM HL") == "Premier Inter Hurling"
  {
    RedFmLower();
    RedFmWords();
    RedFmLacks();
    RedFmLacksMore();
    ScraperRedFmRule("red fm hl");
    MonitorRedFmRule("red fm hl");
  }

  /** The monitor gives "Other" when none of its event words can occur. */
  lemma MonitorOtherRule(c: string)
    requires ' ' !in c && 'c' !in c && 's' !in c && 't' !in c && 'g' !in c && 'v' !in c
    ensures Monitor.EventOf(c) == "Other"
  {
    MissingCharNotContained(c, "championship", 'c');
    MissingCharNotContained(c, "cup", 'c');
    MissingCharNotContained(c, "shield", 's');
    MissingCharNotContained(c, "trophy", 't');
    MissingCharNotContained(c, "league", 'g');
    MissingCharNotContained(c, "division", 'v');
    MissingCharNotContained(c, " fl", ' ');
    MissingCharNotContained(c, " hl", ' ');
  }

  lemma FinalText()
    ensures Lower("Final") == "final" && Contains("final", "final")
  {
  }

  lemma FinalLacks()
    ensures ' ' !in "final" && 'c' !in "final" && 's' !in "final"
    ensures 't' !in "final" && 'g' !in "final" && 'v' !in "final"
  {
  }

  /** A bare "Final" is a championship to the scraper and "Other" to the
      monitor. */
  lemma FinalDivergence()
    ensures EventType("Final") == "Championship"
    ensures Monitor.EventType("Final") == "Other"
  {
    FinalText();
    FinalLacks();
    MonitorOtherRule("final");
  }

  lemma FriendlyLower()
    ensures Lower("Friendly") == "friendly"
  {
  }

  lemma FriendlyLacks()
    ensures ' ' !in "friendly" && 'c' !in "friendly" && 's' !in "friendly" && 'a' !in "friendly"
    ensures 't' !in "friendly" && 'g' !in "friendly" && 'v' !in "friendly"
  {
  }

  /** A competition neither copy recognises is a league to the scraper and
      "Other" to the monitor. */
  lemma OtherDivergence()
    ensures EventType("Friendly") == "League"
    ensures Monitor.EventType("Friendly") == "Other"
  {
    FriendlyLower();
    FriendlyLacks();
    MissingCharNotContained("friendly", "championship", 'c');
    MissingCharNotContained("friendly", "final", 'a');
    MissingCharNotContained("friendly", "cup", 'c');
    MonitorOtherRule("friendly");
  }

  /** Whatever the monitor calls a championship, the scraper does too. */
  lemma ChampionshipAgrees(competition: string)
    requires Monitor.EventType(competition) == "Championship"
    ensures EventType(competition) == "Championship"
  {
  }

  /** A cancelled kick-off time is a postponement to the monitor but a plain
      time, "00:00", to the scraper. */
  lemma MidnightDivergence(time: string)
    requires Monitor.IsCancelledTime(time)
    ensures PaddedTime(time) == "00:00"
    ensures Monitor.TimeColumn(time) == "Postponed"
  {
  }

  /** A record whose sides only contain the club's name, such as
      "Ballincollig A", is a Home or Away fixture to the monitor but a Neutral
      one against "Unknown" to the scraper. */
  lemma OrientationDivergence(f: RawFixture)
    requires f.home != ClubName && f.away != ClubName && ClubPlays(f)
    requires ProcessFixture(f).Some?
    ensures ProcessFixture(f).value.ground == "Neutral"
    ensures ProcessFixture(f).value.opponent == "Unknown"
    ensures Monitor.NormaliseRow(f).Some?
    ensures Monitor.NormaliseRow(f).value.ground in {"Home", "Away"}
  {
  }

  /** A record with a blank referee keeps it blank in the scraper, while the
      monitor writes "TBC (Pending)"; a record whose date does not read is
      dropped by the scraper but kept with its date as written by the monitor. */
  lemma RefereeAndDateDivergence(f: RawFixture)
    requires ClubPlays(f)
    ensures ProcessFixture(f).Some? && f.referee == "" ==> ProcessFixture(f).value.referee == ""
    ensures Monitor.NormaliseRow(f).Some?
    ensures f.referee == "" ==> Monitor.NormaliseRow(f).value.referee == "TBC (Pending)"
    ensures ParseDayMonYear(f.date).None? ==>
      ProcessFixture(f).None? && Monitor.NormaliseRow(f).value.date == f.date
  {
  }
}
