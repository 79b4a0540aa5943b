/** The scheduled fixture monitor: it turns the browser scraper's fixture
    records into the fixtures CSV text (naming the club's team and the event
    type from the competition name), compares the text with the previous
    run's line by line, and, when the fixtures changed, re-reads the fixtures
    CSV and the upload baseline to build the notification's summary of what
    to do on ClubZap. */
module Monitor {
  import opened Wrappers
  import opened Text
  import opened Dates
  import opened Fixtures
  import opened Sync

  // ---------------------------------------------------------------------
  // Classifying a competition name

  /** The club's team names on ClubZap, as the team mapper's documentation
      lists them. */
  const ClubZapTeams: seq<string> := [
    "Senior Football", "Premier Inter Hurling",
    "Junior A Football", "Junior A Hurling", "Junior B Football", "Junior B Hurling",
    "Junior C Football", "Minor Football GAA", "Minor Hurling GAA", "U14 GAA", "U16 GAA",
    "GAA U21 \"A\" Football", "GAA U21 \"A\" Hurling", "GAA U21 \"B\" Football",
    "GAA U21 \"B\" Hurling"]

  /** A lower-cased competition name names a football competition. */
  predicate IsFootball(c: string) {
    Contains(c, "football") || Contains(c, " fl")
  }

  /** A lower-cased competition name names a hurling competition. */
  predicate IsHurling(c: string) {
    Contains(c, "hurling") || Contains(c, " hl")
  }

  /** `map_team_name`: the ClubZap team a competition belongs to, by the first
      rule whose words occur in the lower-cased name, or "Unknown". */
  function MapTeamName(competition: string): string {
    TeamOf(Lower(competition))
  }

  /** Every team the mapper names is a ClubZap team of the club, or "Unknown". */
  lemma TeamNamesListed(competition: string)
    ensures MapTeamName(competition) == "Unknown" || MapTeamName(competition) in ClubZapTeams
  {
  }

  /** The rule chain of `map_team_name` on the lower-cased name `c`. */
  function TeamOf(c: string): string {
    if Contains(c, "fe14") then "U14 GAA"
    else if Contains(c, "fe16") then "U16 GAA"
    else if Contains(c, "fe18") then
      (if IsHurling(c) then "Minor Hurling GAA" else "Minor Football GAA")
    else if Contains(c, "mccarthy insurance") || Contains(c, "mccarthy") then "Senior Football"
    else if Contains(c, "red fm") then "Premier Inter Hurling"
    else if Contains(c, "psfc") || (Contains(c, "premier senior") && IsFootball(c)) then
      "Senior Football"
    else if Contains(c, "pihc") || (Contains(c, "premier intermediate") && IsHurling(c)) then
      "Premier Inter Hurling"
    else if Contains(c, "aos security") || Contains(c, "aos ") then
      if Contains(c, "div 4") || Contains(c, "div 5") then
        (if IsHurling(c) then "Junior B Hurling" else "Junior B Football")
      else if Contains(c, "div 3") then
        (if IsHurling(c) then "Junior B Hurling" else "Junior A Football")
      else
        (if IsHurling(c) then "Junior A Hurling" else "Junior A Football")
    else if Contains(c, "cumnor") then "Junior A Hurling"
    else if Contains(c, "eph ") then
      (if Contains(c, "division 2") || Contains(c, "division 3") then "Junior B Football"
       else "Junior A Football")
    else if Contains(c, "erneside") then "Junior B Hurling"
    else if Contains(c, "junior") then
      (if IsHurling(c) then "Junior A Hurling" else "Junior A Football")
    else if Contains(c, "u21") || Contains(c, "u-21") then
      (if IsHurling(c) then "GAA U21 \"A\" Hurling" else "GAA U21 \"A\" Football")
    else "Unknown"
  }

  /** The under-age grades come first: "fe14" and "fe16" name one team for
      both codes, whatever else the name says, and "fe18" splits by code only. */
  lemma UnderageFirst(competition: string)
    ensures var c := Lower(competition);
      (Contains(c, "fe14") ==> MapTeamName(competition) == "U14 GAA") &&
      (!Contains(c, "fe14") && Contains(c, "fe16") ==> MapTeamName(competition) == "U16 GAA") &&
      (!Contains(c, "fe14") && !Contains(c, "fe16") && Contains(c, "fe18") ==>
        MapTeamName(competition) == (if IsHurling(c) then "Minor Hurling GAA" else "Minor Football GAA"))
  {
  }

  /** Past the under-age rules, the two county-league sponsors win over every
      championship, divisional, junior and U21 rule. */
  lemma SponsorsBeforeGrades(competition: string)
    requires var c := Lower(competition);
      !Contains(c, "fe14") && !Contains(c, "fe16") && !Contains(c, "fe18")
    ensures var c := Lower(competition);
      (Contains(c, "mccarthy") ==> MapTeamName(competition) == "Senior Football") &&
      (!Contains(c, "mccarthy") && Contains(c, "red fm") ==>
        MapTeamName(competition) == "Premier Inter Hurling")
  {
    var c := Lower(competition);
    if Contains(c, "mccarthy") {
      assert TeamOf(c) == "Senior Football";
    } else if Contains(c, "red fm") {
      if Contains(c, "mccarthy insurance") {
        ContainsPrefix(c, "mccarthy insurance", "mccarthy");
      }
    }
  }

  /** The mapper ignores case: a name and its lower-cased form get one team. */
  lemma MapTeamNameIgnoresCase(competition: string)
    ensures MapTeamName(Lower(competition)) == MapTeamName(competition)
  {
    LowerIdempotent(competition);
  }

  /** The event type ignores case too. */
  lemma EventTypeIgnoresCase(competition: string)
    ensures EventType(Lower(competition)) == EventType(competition)
  {
    LowerIdempotent(competition);
  }

  /** `determine_event_type`: "Championship", "Cup", "League" or "Other", by the
      first group of words that occurs in the lower-cased name. */
  function EventType(competition: string): string {
    EventOf(Lower(competition))
  }

  /** The rule chain of `determine_event_type` on the lower-cased name `c`. */
  function EventOf(c: string): string {
    if Contains(c, "championship") then "Championship"
    else if Contains(c, "cup") || Contains(c, "shield") || Contains(c, "trophy") then "Cup"
    else if Contains(c, "league") || Contains(c, "division") || Contains(c, " fl") || Contains(c, " hl")
    then "League"
    else "Other"
  }

  /** The event type is one of four names. */
  lemma EventTypeNames(competition: string)
    ensures EventType(competition) in ["Championship", "Cup", "League", "Other"]
  {
  }

  /** Each event type is chosen by exactly its words, in rule order. */
  lemma EventTypeMeaning(competition: string)
    ensures var c := Lower(competition);
      var cup := Contains(c, "cup") || Contains(c, "shield") || Contains(c, "trophy");
      var league := Contains(c, "league") || Contains(c, "division") || Contains(c, " fl") ||
        Contains(c, " hl");
      (EventType(competition) == "Championship" <==> Contains(c, "championship")) &&
      (EventType(competition) == "Cup" <==> !Contains(c, "championship") && cup) &&
      (EventType(competition) == "League" <==> !Contains(c, "championship") && !cup && league) &&
      (EventType(competition) == "Other" <==> !Contains(c, "championship") && !cup && !league)
  {
  }

  // ---------------------------------------------------------------------
  // Turning scraped records into the fixtures CSV text

  /** The date column: "DD/MM/YYYY" when the text reads as "DD Mon YYYY",
      else the text as scraped. */
  function DateColumn(date: string): string {
    match ParseDayMonYear(date)
    case Some(d) => FormatDate(d)
    case None => date
  }

  /** A date that reads as "DD Mon YYYY" becomes "DD/MM/YYYY" with the same day,
      month and year; any other text is kept as it was rather than skipping the
      record. */
  lemma DateColumnMeaning(date: string)
    ensures var column := DateColumn(date);
      (ParseDayMonYear(date).None? ==> column == date) &&
      (ParseDayMonYear(date).Some? ==>
        var d := ParseDayMonYear(date).value;
        |column| == 10 && column[2] == '/' && column[5] == '/' &&
        AllDigits(column[..2]) && AllDigits(column[3..5]) && AllDigits(column[6..]) &&
        DecimalValue(column[..2]) == d.day && DecimalValue(column[3..5]) == d.month &&
        DecimalValue(column[6..]) == d.year)
  {
  }

  /** The text of a valid date becomes its "DD/MM/YYYY" form. */
  lemma DateColumnOfText(d: Date)
    requires ValidDate(d)
    ensures DateColumn(DayMonYearText(d)) == FormatDate(d)
  {
    ParseDayMonYearText(d);
  }

  /** A kick-off time of midnight marks a postponed or cancelled fixture. */
  predicate IsCancelledTime(time: string) {
    time == "00:00" || time == "0:00"
  }

  /** The time column: "Postponed" for a midnight time, a leading zero on any
      other four-character time, else the time as scraped. */
  function TimeColumn(time: string): string {
    if IsCancelledTime(time) then "Postponed"
    else if time != "" && |time| == 4 then "0" + time
    else time
  }

  /** The referee column: the stripped name, or "TBC (Pending)" when blank. */
  function RefereeColumn(referee: string): string {
    var r := Strip(referee);
    if r == "" then "TBC (Pending)" else r
  }

  /** One record's CSV fixture as the monitor writes it, or `None` when neither
      side is the club and the record is skipped. */
  function NormaliseRow(f: RawFixture): Option<Fixture> {
    match ClubSide(f)
    case Some((ground, opponent)) => Some(Oriented(f, ground, opponent))
    case None => None
  }

  /** The club's ground and its opponent: home when the club's name occurs in
      the home team, else away when it occurs in the away team. */
  function ClubSide(f: RawFixture): Option<(string, string)> {
    if Contains(f.home, ClubName) then Some(("Home", f.away))
    else if Contains(f.away, ClubName) then Some(("Away", f.home))
    else None
  }

  /** The fixture for a record whose ground and opponent are known. */
  function Oriented(f: RawFixture, ground: string, opponent: string): Fixture {
    Fixture(DateColumn(f.date), TimeColumn(f.time), f.venue, ground, RefereeColumn(f.referee),
      MapTeamName(f.competition), f.competition, ClubName, opponent,
      if IsCancelledTime(f.time) then "Postponed" else EventType(f.competition))
  }

  /** A record is kept exactly when the club's name occurs in one of its teams;
      the club's side sets the ground and the other side is the opponent, so the
      ground is never neutral. */
  lemma NormaliseOrientation(f: RawFixture)
    ensures NormaliseRow(f).Some? <==> Contains(f.home, ClubName) || Contains(f.away, ClubName)
    ensures NormaliseRow(f).Some? ==>
      var r := NormaliseRow(f).value;
      r.clubName == ClubName && r.ground in ["Home", "Away"] &&
      (r.ground == "Home" <==> Contains(f.home, ClubName)) &&
      r.opponent == (if r.ground == "Home" then f.away else f.home)
  {
  }

  /** A midnight time, and only that, marks the fixture postponed in both the
      time and the event type columns; the classifier never says "Postponed". */
  lemma NormalisePostponed(f: RawFixture)
    requires NormaliseRow(f).Some?
    ensures var r := NormaliseRow(f).value;
      (r.eventType == "Postponed" <==> IsCancelledTime(f.time)) &&
      (IsCancelledTime(f.time) ==> r.time == "Postponed") &&
      (!IsCancelledTime(f.time) && |f.time| == 4 ==> r.time == "0" + f.time && |r.time| == 5) &&
      (!IsCancelledTime(f.time) && |f.time| != 4 ==> r.time == f.time)
  {
    EventTypeNames(f.competition);
  }

  /** The referee column is never blank and never padded. */
  lemma RefereeNeverBlank(referee: string)
    ensures var r := RefereeColumn(referee);
      r != "" && Strip(r) == r && (Strip(referee) != "" ==> r == Strip(referee))
  {
    StripIdempotent(referee);
    StripUnchanged("TBC (Pending)");
  }

  /** The CSV lines of the records the monitor keeps, in record order. */
  function CsvLines(fixtures: seq<RawFixture>): seq<string> {
    if fixtures == [] then []
    else
      CsvLines(fixtures[..|fixtures| - 1]) +
      match NormaliseRow(fixtures[|fixtures| - 1])
      case Some(r) => [CsvLine(r)]
      case None => []
  }

  /** The fixtures text and the count the monitor stores for one run. */
  datatype FixturesText = FixturesText(text: string, count: int)

  /** What `get_fixtures_data` returns for the scraper's records: nothing when
      there are none, else the header and one line per kept record, joined by
      line breaks, and the number of lines after the header. */
  function FixturesOutcome(fixtures: seq<RawFixture>): Option<FixturesText> {
    if fixtures == [] then None
    else
      var lines := [HeaderLine] + CsvLines(fixtures);
      Some(FixturesText(Join(lines, "\n"), |lines| - 1))
  }

  /** The record loop of `get_fixtures_data`. */
  method FixturesData(fixtures: seq<RawFixture>) returns (data: Option<FixturesText>)
    ensures data == FixturesOutcome(fixtures)
  {
    if |fixtures| == 0 {
      return None;
    }
    var rows: seq<string> := [];
    var i := 0;
    while i < |fixtures|
      invariant 0 <= i <= |fixtures|
      invariant rows == CsvLines(fixtures[..i])
    {
      CsvLinesStep(fixtures, i);
      match NormaliseRow(fixtures[i]) {
        case Some(r) =>
          rows := rows + [CsvLine(r)];
        case None =>
      }
      i := i + 1;
    }
    assert fixtures[..i] == fixtures;
    var csvLines := [HeaderLine] + rows;
    return Some(FixturesText(Join(csvLines, "\n"), |csvLines| - 1));
  }

  /** One more record adds its line when the club plays in it. */
  lemma CsvLinesStep(fixtures: seq<RawFixture>, i: nat)
    requires i < |fixtures|
    ensures CsvLines(fixtures[..i + 1]) == CsvLines(fixtures[..i]) +
      (if NormaliseRow(fixtures[i]).Some? then [CsvLine(NormaliseRow(fixtures[i]).value)] else [])
  {
    assert fixtures[..i + 1][..i] == fixtures[..i];
  }

  /** The number of records that involve the club. */
  function KeptCount(fixtures: seq<RawFixture>): nat {
    if fixtures == [] then 0
    else
      KeptCount(fixtures[..|fixtures| - 1]) +
      (if NormaliseRow(fixtures[|fixtures| - 1]).Some? then 1 else 0)
  }

  /** The count is the number of records that involve the club, so it never
      exceeds the number of records. */
  lemma {:induction false} CountIsKept(fixtures: seq<RawFixture>)
    ensures |CsvLines(fixtures)| == KeptCount(fixtures) <= |fixtures|
  {
    if fixtures != [] {
      CountIsKept(fixtures[..|fixtures| - 1]);
    }
  }

  /** A scraped record none of whose attributes holds a line break. */
  predicate NoLineBreaks(f: RawFixture) {
    '\n' !in f.date && '\n' !in f.time && '\n' !in f.home && '\n' !in f.away &&
    '\n' !in f.referee && '\n' !in f.venue && '\n' !in f.competition
  }

  /** A stripped text holds no character the text lacks. */
  lemma StripKeepsOut(s: string, c: char)
    requires c !in s
    ensures c !in Strip(s)
  {
    TrimStartDrops(s);
    TrimEndDrops(TrimStart(s));
  }

  /** A reformatted date holds digits and slashes only. */
  lemma DateColumnKeepsOut(date: string)
    requires '\n' !in date
    ensures '\n' !in DateColumn(date)
  {
    DateColumnMeaning(date);
    var column := DateColumn(date);
    if ParseDayMonYear(date).Some? {
      forall i | 0 <= i < |column| ensures column[i] != '\n' {
        if i < 2 {
          assert column[..2][i] == column[i];
        } else if 2 < i < 5 {
          assert column[3..5][i - 3] == column[i];
        } else if 5 < i {
          assert column[6..][i - 6] == column[i];
        }
      }
    }
  }

  /** No team name holds a line break. */
  lemma TeamKeepsOut(competition: string)
    ensures '\n' !in MapTeamName(competition)
  {
    TeamNamesListed(competition);
    ListedTeamsKeepOut();
    PrintableKeepsOut("Unknown");
  }

  /** No listed ClubZap team name holds a line break, checked five at a time. */
  lemma ListedTeamsKeepOut()
    ensures forall t :: t in ClubZapTeams ==> '\n' !in t
  {
    FirstTeamsKeepOut();
    MiddleTeamsKeepOut();
    LastTeamsKeepOut();
  }

  lemma FirstTeamsKeepOut()
    ensures forall k :: 0 <= k < 5 ==> '\n' !in ClubZapTeams[k]
  {
  }

  lemma MiddleTeamsKeepOut()
    ensures forall k :: 5 <= k < 10 ==> '\n' !in ClubZapTeams[k]
  {
  }

  lemma LastTeamsKeepOut()
    ensures forall k :: 10 <= k < 15 ==> '\n' !in ClubZapTeams[k]
  {
  }

  /** No event type name holds a line break. */
  lemma EventKeepsOut(competition: string)
    ensures '\n' !in EventType(competition)
  {
    var t := EventType(competition);
    EventTypeNames(competition);
    PrintableKeepsOut(t);
  }

  /** A text of printable characters holds no line break. */
  lemma PrintableKeepsOut(s: string)
    requires forall i :: 0 <= i < |s| ==> ' ' <= s[i]
    ensures '\n' !in s
  {
  }

  /** The line the monitor writes for a record is one line of text. */
  lemma CsvLineKeepsOut(f: RawFixture)
    requires NoLineBreaks(f) && NormaliseRow(f).Some?
    ensures '\n' !in CsvLine(NormaliseRow(f).value)
  {
    var (ground, opponent) := ClubSide(f).value;
    OrientedKeepsOut(f, ground, opponent);
  }

  /** The fixed column values hold no line break. */
  lemma ConstantsKeepOut()
    ensures '\n' !in "Postponed" && '\n' !in "TBC (Pending)" && '\n' !in ClubName
    ensures '\n' !in "Home" && '\n' !in "Away"
  {
  }

  /** The fixture built from a record holds no line break the record lacks. */
  lemma OrientedKeepsOut(f: RawFixture, ground: string, opponent: string)
    requires NoLineBreaks(f) && ground in ["Home", "Away"] && '\n' !in opponent
    ensures '\n' !in CsvLine(Oriented(f, ground, opponent))
  {
    var r := Oriented(f, ground, opponent);
    DateColumnKeepsOut(f.date);
    StripKeepsOut(f.referee, '\n');
    TeamKeepsOut(f.competition);
    EventKeepsOut(f.competition);
    ConstantsKeepOut();
    assert '\n' !in r.time by {
      if !IsCancelledTime(f.time) && f.time != "" && |f.time| == 4 {
        assert "0" + f.time == ['0'] + f.time;
      }
    }
    assert '\n' !in r.ground;
    assert '\n' !in r.eventType;
    JoinAvoids(Fields(r), ",", '\n');
  }

  /** No line of the kept records holds a line break. */
  lemma {:induction false} CsvLinesKeepOut(fixtures: seq<RawFixture>)
    requires forall i :: 0 <= i < |fixtures| ==> NoLineBreaks(fixtures[i])
    ensures forall k :: 0 <= k < |CsvLines(fixtures)| ==> '\n' !in CsvLines(fixtures)[k]
  {
    if fixtures != [] {
      var last := fixtures[|fixtures| - 1];
      CsvLinesKeepOut(fixtures[..|fixtures| - 1]);
      if NormaliseRow(last).Some? {
        CsvLineKeepsOut(last);
      }
    }
  }

  /** Neither the header nor a kept record's line holds a line break. */
  lemma StoredLinesKeepOut(fixtures: seq<RawFixture>)
    requires forall i :: 0 <= i < |fixtures| ==> NoLineBreaks(fixtures[i])
    ensures forall k :: 0 <= k < 1 + |CsvLines(fixtures)| ==>
      '\n' !in ([HeaderLine] + CsvLines(fixtures))[k]
  {
    var lines := CsvLines(fixtures);
    CsvLinesKeepOut(fixtures);
    HeaderLineKeepsOut();
    forall k | 0 <= k < 1 + |lines| ensures '\n' !in ([HeaderLine] + lines)[k] {
      if k > 0 {
        assert ([HeaderLine] + lines)[k] == lines[k - 1];
      }
    }
  }

  /** When no scraped attribute holds a line break, the stored text splits back
      into the header and one line per kept record, so the stored count is the
      number of lines after the header. */
  lemma TextLines(fixtures: seq<RawFixture>)
    requires fixtures != []
    requires forall i :: 0 <= i < |fixtures| ==> NoLineBreaks(fixtures[i])
    ensures var data := FixturesOutcome(fixtures).value;
      Split(data.text, '\n') == [HeaderLine] + CsvLines(fixtures) &&
      data.count == |Split(data.text, '\n')| - 1
  {
    var lines := [HeaderLine] + CsvLines(fixtures);
    StoredLinesKeepOut(fixtures);
    SplitJoin(lines, '\n');
  }

  // ---------------------------------------------------------------------
  // Comparing the stored text with the previous run's

  /** The distinct lines of a stored text; a missing or empty text has none. */
  function LineSet(text: Option<string>): set<string> {
    if text.None? || text.value == "" then {} else Distinct(Split(text.value, '\n'))
  }

  /** The distinct members of a list of lines. */
  function Distinct(lines: seq<string>): set<string> {
    set line | line in lines
  }

  /** What `analyze_changes` reports: the lines only the new text has, the
      lines only the old text has, and how many of each. */
  datatype Analysis = Analysis(added: set<string>, removed: set<string>, addedCount: nat,
    removedCount: nat)

  function AnalyzeChanges(oldText: Option<string>, newText: Option<string>): (a: Analysis)
    ensures a.addedCount == |a.added| && a.removedCount == |a.removed|
  {
    var oldLines, newLines := LineSet(oldText), LineSet(newText);
    var added, removed := newLines - oldLines, oldLines - newLines;
    Analysis(added, removed, |added|, |removed|)
  }

  /** A line is added exactly when only the new text has it and removed exactly
      when only the old text has it, so no line is both. */
  lemma AnalysisMeaning(oldText: Option<string>, newText: Option<string>, line: string)
    ensures var a := AnalyzeChanges(oldText, newText);
      (line in a.added <==> line in LineSet(newText) && line !in LineSet(oldText)) &&
      (line in a.removed <==> line in LineSet(oldText) && line !in LineSet(newText)) &&
      !(line in a.added && line in a.removed)
  {
  }

  /** Comparing the texts the other way round swaps added and removed. */
  lemma AnalysisSwaps(oldText: Option<string>, newText: Option<string>)
    ensures var a, b := AnalyzeChanges(oldText, newText), AnalyzeChanges(newText, oldText);
      a.added == b.removed && a.removed == b.added
  {
  }

  /** Nothing is added or removed exactly when both texts have the same lines,
      whatever their order or repetitions. */
  lemma NoChangeIffSameLines(oldText: Option<string>, newText: Option<string>)
    ensures var a := AnalyzeChanges(oldText, newText);
      (a.addedCount == 0 && a.removedCount == 0) <==> LineSet(oldText) == LineSet(newText)
  {
    var a := AnalyzeChanges(oldText, newText);
    if a.addedCount == 0 && a.removedCount == 0 {
      assert a.added == {} && a.removed == {};
      forall line | line in LineSet(newText) ensures line in LineSet(oldText) {
        assert line !in a.added;
      }
      forall line | line in LineSet(oldText) ensures line in LineSet(newText) {
        assert line !in a.removed;
      }
    }
  }

  /** The lines of a text joined from non-empty-first lines without line
      breaks are exactly those lines. */
  lemma LineSetOfJoin(lines: seq<string>)
    requires |lines| >= 1 && lines[0] != ""
    requires forall k :: 0 <= k < |lines| ==> '\n' !in lines[k]
    ensures LineSet(Some(Join(lines, "\n"))) == Distinct(lines)
  {
    SplitJoin(lines, '\n');
    assert |Join(lines, "\n")| >= |lines[0]|;
  }

  /** The lines of a text joined from a non-empty first line and further lines,
      none with a line break, are the first line and the others. */
  lemma HeaderFirst(first: string, rest: seq<string>)
    requires first != ""
    requires forall k :: 0 <= k < 1 + |rest| ==> '\n' !in ([first] + rest)[k]
    ensures LineSet(Some(Join([first] + rest, "\n"))) == {first} + Distinct(rest)
  {
    LineSetOfJoin([first] + rest);
  }

  /** The lines of the text the monitor stores are its header and the lines of
      the kept records. */
  lemma {:induction false} StoredLines(fixtures: seq<RawFixture>)
    requires fixtures != []
    requires forall i :: 0 <= i < |fixtures| ==> NoLineBreaks(fixtures[i])
    ensures LineSet(Some(FixturesOutcome(fixtures).value.text)) ==
      {HeaderLine} + Distinct(CsvLines(fixtures))
  {
    StoredLinesKeepOut(fixtures);
    HeaderLineKeepsOut();
    HeaderFirst(HeaderLine, CsvLines(fixtures));
  }

  // ---------------------------------------------------------------------
  // The ClubZap summary of a change

  /** A snapshot as the CSV reader's dictionary holds it: key and row pairs in
      the dictionary's iteration order. */
  type Entries = seq<(Key, Row)>

  /** The keys of a dictionary. */
  function KeysOf(entries: Entries): set<Key> {
    set i | 0 <= i < |entries| :: entries[i].0
  }

  /** Lookup in a dictionary: the row of the last entry with the key. */
  function MapOf(entries: Entries): Snapshot {
    if entries == [] then map[]
    else
      var last := entries[|entries| - 1];
      MapOf(entries[..|entries| - 1])[last.0 := last.1]
  }

  /** The summary's note for one changed column: the column and its new value,
      as read, not stripped. */
  function Note(column: string, row: Row): string {
    "  " + column + ": " + Get(row, column)
  }

  /** The notes for the columns of `columns` that differ after strip, in column
      order. */
  function Notes(columns: seq<string>, oldRow: Row, row: Row): seq<string> {
    if columns == [] then [] else NoteFor(columns[0], oldRow, row) + Notes(columns[1..], oldRow, row)
  }

  /** The note for one column: one when it differs after strip, else none. */
  function NoteFor(column: string, oldRow: Row, row: Row): seq<string> {
    if Differs(oldRow, row, column) then [Note(column, row)] else []
  }

  /** The summary notes a column exactly where the upload diff lists a change:
      one note per change entry. */
  lemma {:induction false} NotesMatchChanges(columns: seq<string>, oldRow: Row, row: Row)
    ensures |Notes(columns, oldRow, row)| == |ChangesIn(columns, oldRow, row)|
  {
    if columns != [] {
      NotesMatchChanges(columns[1..], oldRow, row);
    }
  }

  /** The column loop for one fixture of the summary. */
  method ColumnNotes(columns: seq<string>, oldRow: Row, row: Row) returns (notes: seq<string>)
    ensures notes == Notes(columns, oldRow, row)
  {
    notes := [];
    for i := 0 to |columns|
      invariant notes == Notes(columns[..i], oldRow, row)
    {
      assert columns[..i + 1] == columns[..i] + [columns[i]];
      NotesSnoc(columns[..i], columns[i], oldRow, row);
      if Strip(Get(oldRow, columns[i])) != Strip(Get(row, columns[i])) {
        notes := notes + [Note(columns[i], row)];
      }
    }
    assert columns[..|columns|] == columns;
  }

  /** One more column adds its note at the end when it differs. */
  lemma {:induction false} NotesSnoc(columns: seq<string>, c: string, oldRow: Row, row: Row)
    ensures Notes(columns + [c], oldRow, row) == Notes(columns, oldRow, row) + NoteFor(c, oldRow, row)
  {
    if columns == [] {
      assert columns + [c] == [c];
      assert [c][1..] == [];
    } else {
      assert (columns + [c])[0] == columns[0];
      assert (columns + [c])[1..] == columns[1..] + [c];
      NotesSnoc(columns[1..], c, oldRow, row);
      AppendAssoc(NoteFor(columns[0], oldRow, row), Notes(columns[1..], oldRow, row),
        NoteFor(c, oldRow, row));
    }
  }

  /** The three lists the summary is built from. */
  datatype Items = Items(newItems: seq<Row>, changedItems: seq<(Row, seq<string>)>,
    postponedItems: seq<Row>)

  /** One fixture of the current snapshot added to the lists: a postponed one
      whatever the baseline says, else a new one when the baseline lacks its
      key, else a changed one when it has notes; an unchanged one is dropped. */
  function Sort(items: Items, key: Key, row: Row, baseline: Snapshot): Items {
    if IsPostponed(row) then items.(postponedItems := items.postponedItems + [row])
    else if key !in baseline then items.(newItems := items.newItems + [row])
    else
      var notes := Notes(ChangeColumns, baseline[key], row);
      if notes != [] then items.(changedItems := items.changedItems + [(row, notes)])
      else items
  }

  /** The lists for a whole snapshot, in iteration order. */
  function Triage(current: Entries, baseline: Snapshot): Items {
    if current == [] then Items([], [], [])
    else
      var last := current[|current| - 1];
      Sort(Triage(current[..|current| - 1], baseline), last.0, last.1, baseline)
  }

  /** The summary sorts each fixture as the upload diff classifies it: new,
      changed and postponed alike, and drops exactly the unchanged ones. */
  lemma SortMatchesClassify(items: Items, key: Key, row: Row, baseline: Snapshot)
    ensures var v, sorted := Classify(row, baseline, key), Sort(items, key, row, baseline);
      (v == Postponed ==> sorted == items.(postponedItems := items.postponedItems + [row])) &&
      (v == New ==> sorted == items.(newItems := items.newItems + [row])) &&
      (v == Changed ==> sorted == items.(changedItems := items.changedItems +
        [(row, Notes(ChangeColumns, baseline[key], row))])) &&
      (v == Unchanged ==> sorted == items)
  {
    if key in baseline && !IsPostponed(row) {
      NotesMatchChanges(ChangeColumns, baseline[key], row);
    }
  }

  /** The fixtures of a snapshot the upload diff gives verdict `v`. */
  function CountVerdict(current: Entries, baseline: Snapshot, v: Verdict): nat {
    if current == [] then 0
    else
      var last := current[|current| - 1];
      CountVerdict(current[..|current| - 1], baseline, v) +
      (if Classify(last.1, baseline, last.0) == v then 1 else 0)
  }

  /** The summary's lists are as long as the upload diff's new, changed and
      postponed verdicts are many; the unchanged fixtures make up the rest. */
  lemma {:induction false} TriageCounts(current: Entries, baseline: Snapshot)
    ensures var items := Triage(current, baseline);
      |items.newItems| == CountVerdict(current, baseline, New) &&
      |items.changedItems| == CountVerdict(current, baseline, Changed) &&
      |items.postponedItems| == CountVerdict(current, baseline, Postponed) &&
      |items.newItems| + |items.changedItems| + |items.postponedItems| +
        CountVerdict(current, baseline, Unchanged) == |current|
  {
    if current != [] {
      var init, last := current[..|current| - 1], current[|current| - 1];
      TriageCounts(init, baseline);
      SortMatchesClassify(Triage(init, baseline), last.0, last.1, baseline);
    }
  }

  /** The fixture loop of the summary. */
  method CollectItems(current: Entries, baseline: Snapshot) returns (items: Items)
    ensures items == Triage(current, baseline)
  {
    var newItems, changedItems, postponedItems := [], [], [];
    var i := 0;
    while i < |current|
      invariant 0 <= i <= |current|
      invariant Items(newItems, changedItems, postponedItems) == Triage(current[..i], baseline)
    {
      assert current[..i + 1][..i] == current[..i];
      var (key, row) := current[i];
      if Get(row, "Time") == "Postponed" {
        postponedItems := postponedItems + [row];
      } else if key !in baseline {
        newItems := newItems + [row];
      } else {
        var notes := ColumnNotes(ChangeColumns, baseline[key], row);
        if |notes| > 0 {
          changedItems := changedItems + [(row, notes)];
        }
      }
      i := i + 1;
    }
    assert current[..i] == current;
    items := Items(newItems, changedItems, postponedItems);
  }

  /** The baseline rows whose keys the current snapshot lacks, in iteration order. */
  function RemovedItems(baseline: Entries, current: set<Key>): seq<Row> {
    if baseline == [] then []
    else
      var last := baseline[|baseline| - 1];
      RemovedItems(baseline[..|baseline| - 1], current) +
      (if last.0 !in current then [last.1] else [])
  }

  /** A row is listed as removed exactly when a baseline entry with a key the
      current snapshot lacks holds it. */
  lemma {:induction false} RemovedItemsMeaning(baseline: Entries, current: set<Key>, row: Row)
    ensures row in RemovedItems(baseline, current) <==>
      exists i :: 0 <= i < |baseline| && baseline[i].0 !in current && baseline[i].1 == row
  {
    if baseline != [] {
      var init := baseline[..|baseline| - 1];
      RemovedItemsMeaning(init, current, row);
      if exists i :: 0 <= i < |init| && init[i].0 !in current && init[i].1 == row {
        var i :| 0 <= i < |init| && init[i].0 !in current && init[i].1 == row;
        assert baseline[i] == init[i];
      }
      if exists i :: 0 <= i < |baseline| && baseline[i].0 !in current && baseline[i].1 == row {
        var i :| 0 <= i < |baseline| && baseline[i].0 !in current && baseline[i].1 == row;
        if i < |init| {
          assert init[i] == baseline[i];
        }
      }
    }
  }

  /** The removed loop of the summary. */
  method CollectRemoved(baseline: Entries, current: set<Key>) returns (removed: seq<Row>)
    ensures removed == RemovedItems(baseline, current)
  {
    removed := [];
    var i := 0;
    while i < |baseline|
      invariant 0 <= i <= |baseline|
      invariant removed == RemovedItems(baseline[..i], current)
    {
      assert baseline[..i + 1][..i] == baseline[..i];
      var (key, row) := baseline[i];
      if key !in current {
        removed := removed + [row];
      }
      i := i + 1;
    }
    assert baseline[..i] == baseline;
  }

  /** No key occurs twice among the entries, as in any dictionary. */
  predicate DistinctKeys(entries: Entries) {
    forall i, j :: 0 <= i < j < |entries| ==> entries[i].0 != entries[j].0
  }

  /** The entries of the dictionary `read_csv_fixtures` returns: each row is
      stored under its own fixture key, and no key occurs twice. */
  predicate IsFixtureDictionary(entries: Entries) {
    DistinctKeys(entries) &&
    forall i :: 0 <= i < |entries| ==> entries[i].0 == FixtureKey(entries[i].1)
  }

  /** A dictionary holds exactly the keys of its entries. */
  lemma {:induction false} MapOfKeys(entries: Entries)
    ensures MapOf(entries).Keys == KeysOf(entries)
  {
    if entries != [] {
      var init, last := entries[..|entries| - 1], entries[|entries| - 1];
      MapOfKeys(init);
      forall k | k in KeysOf(entries) ensures k in KeysOf(init) || k == last.0 {
        var i :| 0 <= i < |entries| && entries[i].0 == k;
        if i < |init| {
          assert init[i] == entries[i];
        }
      }
      forall k | k in KeysOf(init) ensures k in KeysOf(entries) {
        var i :| 0 <= i < |init| && init[i].0 == k;
        assert entries[i] == init[i];
      }
      assert last.0 in KeysOf(entries);
    }
  }

  /** The entries of a fixtures dictionary make a snapshot in which every row is
      stored under its own key, as the sync tool's reader builds it. */
  lemma {:induction false} DictionaryIsIndex(entries: Entries)
    requires IsFixtureDictionary(entries)
    ensures forall k :: k in MapOf(entries) ==> FixtureKey(MapOf(entries)[k]) == k
  {
    if entries != [] {
      var init := entries[..|entries| - 1];
      assert IsFixtureDictionary(init) by {
        forall i | 0 <= i < |init| ensures init[i] == entries[i] { }
      }
      DictionaryIsIndex(init);
    }
  }

  /** A fixture added under a fresh key joins the part of its verdict and no
      other. */
  lemma PartKeysInsert(current: Snapshot, baseline: Snapshot, key: Key, row: Row, v: Verdict)
    requires key !in current
    ensures Part(current[key := row], baseline, {}, v).Keys ==
      Part(current, baseline, {}, v).Keys + (if Classify(row, baseline, key) == v then {key} else {})
  {
    forall k | k != key
      ensures k in Part(current[key := row], baseline, {}, v) <==> k in Part(current, baseline, {}, v)
    {
      assert k in current[key := row] <==> k in current;
    }
  }

  /** So the part of the fresh fixture's verdict grows by one. */
  lemma PartInsert(current: Snapshot, baseline: Snapshot, key: Key, row: Row, v: Verdict)
    requires key !in current
    ensures |Part(current[key := row], baseline, {}, v)| ==
      |Part(current, baseline, {}, v)| + (if Classify(row, baseline, key) == v then 1 else 0)
  {
    PartKeysInsert(current, baseline, key, row, v);
    assert key !in Part(current, baseline, {}, v).Keys;
  }

  /** A baseline fixture added under a fresh key is removed exactly when the
      current snapshot lacks its key. */
  lemma RemovedKeysInsert(current: Snapshot, baseline: Snapshot, key: Key, row: Row)
    requires key !in baseline
    ensures Removed(current, baseline[key := row]).Keys ==
      Removed(current, baseline).Keys + (if key !in current then {key} else {})
  {
  }

  /** Over a dictionary, the count of each verdict is the size of the upload
      diff's part for it. */
  lemma {:induction false} CountVerdictIsPart(current: Entries, baseline: Snapshot, v: Verdict)
    requires DistinctKeys(current)
    ensures CountVerdict(current, baseline, v) == |Part(MapOf(current), baseline, {}, v)|
  {
    if current != [] {
      var init, last := current[..|current| - 1], current[|current| - 1];
      assert DistinctKeys(init) by {
        forall i | 0 <= i < |init| ensures init[i] == current[i] { }
      }
      CountVerdictIsPart(init, baseline, v);
      MapOfKeys(init);
      assert last.0 !in MapOf(init);
      PartInsert(MapOf(init), baseline, last.0, last.1, v);
    }
  }

  /** Over a dictionary, the removed rows are as many as the upload diff's
      removed fixtures. */
  lemma {:induction false} RemovedItemsCount(baseline: Entries, current: Snapshot)
    requires DistinctKeys(baseline)
    ensures |RemovedItems(baseline, current.Keys)| == |Removed(current, MapOf(baseline))|
  {
    if baseline != [] {
      var init, last := baseline[..|baseline| - 1], baseline[|baseline| - 1];
      assert DistinctKeys(init) by {
        forall i | 0 <= i < |init| ensures init[i] == baseline[i] { }
      }
      RemovedItemsCount(init, current);
      MapOfKeys(init);
      assert last.0 !in MapOf(init);
      RemovedKeysInsert(current, MapOf(init), last.0, last.1);
      assert last.0 !in Removed(current, MapOf(init)).Keys;
    }
  }

  /** On the dictionaries the CSV reader returns, the summary lists as many new,
      changed, postponed and removed fixtures as the upload diff finds. */
  lemma TriageMatchesDiff(current: Entries, baseline: Entries)
    requires DistinctKeys(current) && DistinctKeys(baseline)
    ensures var items, removed := Triage(current, MapOf(baseline)), RemovedItems(baseline, KeysOf(current));
      var d := Diff(MapOf(current), MapOf(baseline));
      |items.newItems| == |d.newFixtures| &&
      |items.changedItems| == |d.changedFixtures| &&
      |items.postponedItems| == |d.postponedFixtures| &&
      |removed| == |d.removedFixtures|
  {
    var b := MapOf(baseline);
    TriageCounts(current, b);
    CountVerdictIsPart(current, b, New);
    CountVerdictIsPart(current, b, Changed);
    CountVerdictIsPart(current, b, Postponed);
    assert ChangedPart(MapOf(current), b, {}).Keys == Part(MapOf(current), b, {}, Changed).Keys;
    MapOfKeys(current);
    RemovedItemsCount(baseline, MapOf(current));
  }

  /** How many new or changed fixtures the summary shows before it only counts
      the rest. */
  const Shown: nat := 5

  /** What the summary says when there is nothing to do on ClubZap. */
  const QuietSummary: string := "No ClubZap action needed"

  function Min(a: nat, b: nat): nat {
    if a <= b then a else b
  }

  /** A section's heading, such as "NEW (3):". */
  function Heading(title: string, n: nat): string {
    title + " (" + NatToString(n) + "):"
  }

  /** A fixture's line: its date, team and opponent. */
  function ItemLine(row: Row): string {
    "  " + Get(row, "Date") + " " + Get(row, "Team") + " vs " + Get(row, "Opponent")
  }

  /** The count of the fixtures a capped section does not show. */
  function MoreLine(n: nat): string
    requires n > Shown
  {
    "  ...and " + NatToString(n - Shown) + " more"
  }

  function More(n: nat): seq<string> {
    if n > Shown then [MoreLine(n)] else []
  }

  /** One line per fixture, in order. */
  function ItemLines(rows: seq<Row>): seq<string> {
    if rows == [] then [] else ItemLines(rows[..|rows| - 1]) + [ItemLine(rows[|rows| - 1])]
  }

  /** A changed fixture's notes, indented under its line. */
  function Indented(notes: seq<string>): seq<string> {
    if notes == [] then [] else Indented(notes[..|notes| - 1]) + ["    " + notes[|notes| - 1]]
  }

  /** Each changed fixture's line followed by its notes. */
  function ChangedLines(items: seq<(Row, seq<string>)>): seq<string> {
    if items == [] then []
    else
      var last := items[|items| - 1];
      ChangedLines(items[..|items| - 1]) + [ItemLine(last.0)] + Indented(last.1)
  }

  /** The new fixtures: a heading, the first five, and the count of the rest. */
  function NewSection(rows: seq<Row>): seq<string> {
    if rows == [] then []
    else [Heading("NEW", |rows|)] + ItemLines(rows[..Min(Shown, |rows|)]) + More(|rows|)
  }

  /** The changed fixtures: a heading, the first five with their notes, and the
      count of the rest. */
  function ChangedSection(items: seq<(Row, seq<string>)>): seq<string> {
    if items == [] then []
    else [Heading("CHANGED", |items|)] + ChangedLines(items[..Min(Shown, |items|)]) + More(|items|)
  }

  /** A section that lists every fixture under its heading. */
  function ListSection(title: string, rows: seq<Row>): seq<string> {
    if rows == [] then [] else [Heading(title, |rows|)] + ItemLines(rows)
  }

  /** The summary's lines, section by section. */
  function SummaryParts(items: Items, removed: seq<Row>): seq<string> {
    NewSection(items.newItems) + ChangedSection(items.changedItems) +
    ListSection("POSTPONED", items.postponedItems) + ListSection("REMOVED", removed)
  }

  /** The summary text of the notification. */
  function SummaryText(items: Items, removed: seq<Row>): string {
    var parts := SummaryParts(items, removed);
    if parts == [] then QuietSummary else Join(parts, "\n")
  }

  /** There is one line per fixture, and line i is fixture i's. */
  lemma {:induction false} ItemLinesShape(rows: seq<Row>)
    ensures |ItemLines(rows)| == |rows|
    ensures forall i :: 0 <= i < |rows| ==> ItemLines(rows)[i] == ItemLine(rows[i])
  {
    if rows != [] {
      ItemLinesShape(rows[..|rows| - 1]);
    }
  }

  /** The new section shows at most five fixtures, the first ones, and ends with
      the count of the others exactly when there are more than five. */
  lemma NewSectionShape(rows: seq<Row>)
    ensures rows == [] <==> NewSection(rows) == []
    ensures rows != [] ==>
      var section, n := NewSection(rows), |rows|;
      |section| == 1 + Min(Shown, n) + (if n > Shown then 1 else 0) &&
      section[0] == Heading("NEW", n) &&
      (forall i :: 0 <= i < Min(Shown, n) ==> section[1 + i] == ItemLine(rows[i])) &&
      (n > Shown ==> section[|section| - 1] == MoreLine(n))
  {
    if rows != [] {
      ItemLinesShape(rows[..Min(Shown, |rows|)]);
    }
  }

  /** The postponed and removed sections list every fixture. */
  lemma ListSectionShape(title: string, rows: seq<Row>)
    ensures rows == [] <==> ListSection(title, rows) == []
    ensures rows != [] ==>
      var section := ListSection(title, rows);
      |section| == 1 + |rows| && section[0] == Heading(title, |rows|) &&
      forall i :: 0 <= i < |rows| ==> section[1 + i] == ItemLine(rows[i])
  {
    ItemLinesShape(rows);
  }

  /** Each note is indented in its place. */
  lemma {:induction false} IndentedShape(notes: seq<string>)
    ensures |Indented(notes)| == |notes|
    ensures forall j :: 0 <= j < |notes| ==> Indented(notes)[j] == "    " + notes[j]
  {
    if notes != [] {
      IndentedShape(notes[..|notes| - 1]);
    }
  }

  /** Every changed fixture has its line. */
  lemma {:induction false} ChangedLinesShowFixtures(items: seq<(Row, seq<string>)>)
    ensures forall i :: 0 <= i < |items| ==> ItemLine(items[i].0) in ChangedLines(items)
  {
    if items != [] {
      var init := items[..|items| - 1];
      ChangedLinesShowFixtures(init);
      forall i | 0 <= i < |init| ensures items[i] == init[i] { }
    }
  }

  /** Every note of a changed fixture is shown, indented. */
  lemma {:induction false} ChangedLinesShowNotes(items: seq<(Row, seq<string>)>)
    ensures forall i, j :: 0 <= i < |items| && 0 <= j < |items[i].1| ==>
      "    " + items[i].1[j] in ChangedLines(items)
  {
    if items != [] {
      var init, last := items[..|items| - 1], items[|items| - 1];
      ChangedLinesShowNotes(init);
      IndentedShape(last.1);
      forall i, j | 0 <= i < |items| && 0 <= j < |items[i].1|
        ensures "    " + items[i].1[j] in ChangedLines(items)
      {
        if i < |init| {
          assert items[i] == init[i];
        } else {
          assert Indented(last.1)[j] == "    " + items[i].1[j];
        }
      }
    }
  }

  /** The number of lines the changed fixtures take: each one's line and its
      notes. */
  function Width(items: seq<(Row, seq<string>)>): nat {
    if items == [] then 0 else Width(items[..|items| - 1]) + 1 + |items[|items| - 1].1|
  }

  /** The changed fixtures take one line each plus one per note. */
  lemma {:induction false} ChangedLinesLength(items: seq<(Row, seq<string>)>)
    ensures |ChangedLines(items)| == Width(items)
  {
    if items != [] {
      ChangedLinesLength(items[..|items| - 1]);
      IndentedShape(items[|items| - 1].1);
    }
  }

  /** The i-th changed fixture's line comes right after the lines of the
      fixtures before it, and is followed directly by its indented notes. */
  lemma {:induction false} ChangedLinesAt(items: seq<(Row, seq<string>)>, i: nat)
    requires i < |items|
    ensures Width(items[..i]) + 1 + |items[i].1| <= Width(items)
    ensures |ChangedLines(items)| == Width(items)
    ensures ChangedLines(items)[Width(items[..i])] == ItemLine(items[i].0)
    ensures forall j :: 0 <= j < |items[i].1| ==>
      ChangedLines(items)[Width(items[..i]) + 1 + j] == "    " + items[i].1[j]
  {
    var init, last := items[..|items| - 1], items[|items| - 1];
    ChangedLinesLength(items);
    ChangedLinesLength(init);
    assert ChangedLines(items) == ChangedLines(init) + [ItemLine(last.0)] + Indented(last.1);
    if i < |init| {
      assert items[..i] == init[..i];
      assert items[i] == init[i];
      ChangedLinesAt(init, i);
    } else {
      assert items[..i] == init;
      IndentedShape(last.1);
    }
  }

  /** The changed section opens with its heading, shows only the first five
      changed fixtures with all their notes, and ends with the count of the
      others exactly when there are more than five. */
  lemma ChangedSectionShape(items: seq<(Row, seq<string>)>)
    ensures items == [] <==> ChangedSection(items) == []
    ensures items != [] ==>
      var section, n := ChangedSection(items), |items|;
      |section| == 1 + Width(items[..Min(Shown, n)]) + (if n > Shown then 1 else 0) &&
      section[0] == Heading("CHANGED", n) &&
      (n > Shown ==> section == [Heading("CHANGED", n)] + ChangedLines(items[..Shown]) + [MoreLine(n)]) &&
      (n > Shown ==> section[|section| - 1] == MoreLine(n)) &&
      (n <= Shown ==> section == [Heading("CHANGED", n)] + ChangedLines(items)) &&
      (forall i :: 0 <= i < Min(Shown, n) ==> ItemLine(items[i].0) in section) &&
      (forall i, j :: 0 <= i < Min(Shown, n) && 0 <= j < |items[i].1| ==>
         "    " + items[i].1[j] in section)
  {
    if items != [] {
      var shown := items[..Min(Shown, |items|)];
      ChangedLinesLength(shown);
      ChangedLinesShowFixtures(shown);
      ChangedLinesShowNotes(shown);
      assert items[..|items|] == items;
      forall i | 0 <= i < Min(Shown, |items|) ensures items[i] == shown[i] { }
    }
  }

  /** In the changed section, each shown fixture's line sits after the heading
      and the lines of the fixtures before it, followed directly by its
      indented notes. */
  lemma ChangedSectionAt(items: seq<(Row, seq<string>)>, i: nat)
    requires i < Min(Shown, |items|)
    ensures var section := ChangedSection(items);
      2 + Width(items[..i]) + |items[i].1| <= |section| &&
      section[1 + Width(items[..i])] == ItemLine(items[i].0) &&
      forall j :: 0 <= j < |items[i].1| ==>
        section[2 + Width(items[..i]) + j] == "    " + items[i].1[j]
  {
    var shown := items[..Min(Shown, |items|)];
    assert items[i] == shown[i] && items[..i] == shown[..i];
    ChangedLinesAt(shown, i);
    var section := ChangedSection(items);
    assert section == [Heading("CHANGED", |items|)] + ChangedLines(shown) + More(|items|);
  }

  /** A joined text begins with its first part. */
  lemma JoinStartsWithFirst(parts: seq<string>, sep: string)
    requires |parts| >= 1
    ensures StartsWith(Join(parts, sep), parts[0])
  {
    if |parts| > 1 {
      assert (parts[0] + sep + Join(parts[1..], sep))[..|parts[0]|] == parts[0];
    }
  }

  /** A heading keeps its title's second letter. */
  lemma HeadingSecondLetter(title: string, n: nat)
    requires |title| >= 2
    ensures |Heading(title, n)| >= 2 && Heading(title, n)[1] == title[1]
  {
  }

  /** A non-empty summary opens with a heading, whose second letter is upper
      case. */
  lemma FirstPartIsHeading(items: Items, removed: seq<Row>)
    requires SummaryParts(items, removed) != []
    ensures |SummaryParts(items, removed)[0]| >= 2
    ensures SummaryParts(items, removed)[0][1] != 'o'
  {
    if items.newItems != [] {
      HeadingSecondLetter("NEW", |items.newItems|);
    } else if items.changedItems != [] {
      HeadingSecondLetter("CHANGED", |items.changedItems|);
    } else if items.postponedItems != [] {
      HeadingSecondLetter("POSTPONED", |items.postponedItems|);
    } else {
      HeadingSecondLetter("REMOVED", |removed|);
    }
  }

  /** The summary has lines exactly when some fixture is new, changed,
      postponed or removed. */
  lemma PartsEmptyExactly(items: Items, removed: seq<Row>)
    ensures SummaryParts(items, removed) == [] <==>
      items.newItems == [] && items.changedItems == [] && items.postponedItems == [] &&
      removed == []
  {
  }

  lemma QuietSecondLetter()
    ensures |QuietSummary| >= 2 && QuietSummary[1] == 'o'
  {
  }

  /** The summary says there is nothing to do exactly when there is no new,
      changed, postponed or removed fixture. */
  lemma QuietExactly(items: Items, removed: seq<Row>)
    ensures SummaryText(items, removed) == QuietSummary <==>
      items.newItems == [] && items.changedItems == [] && items.postponedItems == [] &&
      removed == []
  {
    var parts := SummaryParts(items, removed);
    PartsEmptyExactly(items, removed);
    if parts != [] {
      JoinStartsWithFirst(parts, "\n");
      FirstPartIsHeading(items, removed);
      QuietSecondLetter();
      assert Join(parts, "\n")[1] == parts[0][1];
    }
  }

  /** Appends one line per fixture. */
  method AppendItems(parts: seq<string>, rows: seq<Row>) returns (out: seq<string>)
    ensures out == parts + ItemLines(rows)
  {
    out := parts;
    var i := 0;
    while i < |rows|
      invariant 0 <= i <= |rows|
      invariant out == parts + ItemLines(rows[..i])
    {
      assert rows[..i + 1][..i] == rows[..i];
      out := out + [ItemLine(rows[i])];
      i := i + 1;
    }
    assert rows[..i] == rows;
  }

  /** Appends a changed fixture's notes, indented. */
  method AppendNotes(parts: seq<string>, notes: seq<string>) returns (out: seq<string>)
    ensures out == parts + Indented(notes)
  {
    out := parts;
    var j := 0;
    while j < |notes|
      invariant 0 <= j <= |notes|
      invariant out == parts + Indented(notes[..j])
    {
      assert notes[..j + 1][..j] == notes[..j];
      out := out + ["    " + notes[j]];
      j := j + 1;
    }
    assert notes[..j] == notes;
  }

  /** Appends each changed fixture's line followed by its indented notes. */
  method AppendChanged(parts: seq<string>, items: seq<(Row, seq<string>)>)
    returns (out: seq<string>)
    ensures out == parts + ChangedLines(items)
  {
    out := parts;
    var i := 0;
    while i < |items|
      invariant 0 <= i <= |items|
      invariant out == parts + ChangedLines(items[..i])
    {
      assert items[..i + 1][..i] == items[..i];
      assert ChangedLines(items[..i + 1]) ==
        ChangedLines(items[..i]) + [ItemLine(items[i].0)] + Indented(items[i].1);
      out := AppendNotes(out + [ItemLine(items[i].0)], items[i].1);
      i := i + 1;
    }
    assert items[..i] == items;
  }

  /** Appends the new section. */
  method AppendNewSection(parts: seq<string>, rows: seq<Row>) returns (out: seq<string>)
    ensures out == parts + NewSection(rows)
  {
    var n := |rows|;
    if n == 0 {
      out := parts;
    } else {
      var shown := rows[..Min(Shown, n)];
      assert NewSection(rows) == [Heading("NEW", n)] + ItemLines(shown) + More(n);
      out := AppendItems(parts + [Heading("NEW", n)], shown);
      if n > Shown {
        out := out + [MoreLine(n)];
      }
    }
  }

  /** Appends the changed section. */
  method AppendChangedSection(parts: seq<string>, items: seq<(Row, seq<string>)>)
    returns (out: seq<string>)
    ensures out == parts + ChangedSection(items)
  {
    var n := |items|;
    if n == 0 {
      out := parts;
    } else {
      var shown := items[..Min(Shown, n)];
      assert ChangedSection(items) == [Heading("CHANGED", n)] + ChangedLines(shown) + More(n);
      out := AppendChanged(parts + [Heading("CHANGED", n)], shown);
      if n > Shown {
        out := out + [MoreLine(n)];
      }
    }
  }

  /** Appends a section that lists every fixture. */
  method AppendListSection(parts: seq<string>, title: string, rows: seq<Row>)
    returns (out: seq<string>)
    ensures out == parts + ListSection(title, rows)
  {
    out := parts;
    if rows != [] {
      out := AppendItems(out + [Heading(title, |rows|)], rows);
    }
  }

  /** Builds the summary of the notification, section by section. */
  method BuildSummary(items: Items, removed: seq<Row>) returns (summary: string)
    ensures summary == SummaryText(items, removed)
  {
    var parts := AppendNewSection([], items.newItems);
    assert parts == NewSection(items.newItems);
    parts := AppendChangedSection(parts, items.changedItems);
    parts := AppendListSection(parts, "POSTPONED", items.postponedItems);
    parts := AppendListSection(parts, "REMOVED", removed);
    if parts != [] {
      summary := Join(parts, "\n");
    } else {
      summary := QuietSummary;
    }
  }

  /** The inline diff of check_for_changes: sort the current fixtures against the
      baseline, collect the removed ones, and summarise. */
  method InlineSummary(current: Entries, baseline: Entries) returns (summary: string)
    requires IsFixtureDictionary(current) && IsFixtureDictionary(baseline)
    ensures summary == SummaryText(Triage(current, MapOf(baseline)),
                                   RemovedItems(baseline, KeysOf(current)))
  {
    var items := CollectItems(current, MapOf(baseline));
    var removed := CollectRemoved(baseline, KeysOf(current));
    summary := BuildSummary(items, removed);
  }
}
