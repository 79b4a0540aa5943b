/** The records that flow through the fixture pipeline: a fixture as a results
    page carries it, a fixture as one line of the fixtures CSV, and a CSV row as
    the CSV reader hands it back (column name to value). */
module Fixtures {
  import opened Text

  /** One fixture as scraped: the page's data attributes (or the browser
      scraper's dictionary). An attribute the page lacks reads as "". */
  datatype RawFixture = RawFixture(
    date: string, time: string, home: string, away: string,
    referee: string, venue: string, competition: string)

  /** One line of the fixtures CSV, its ten columns in header order. */
  datatype Fixture = Fixture(
    date: string, time: string, venue: string, ground: string, referee: string,
    team: string, competition: string, clubName: string, opponent: string,
    eventType: string)

  /** The tracked club, as the pages spell it. */
  const ClubName: string := "Ballincollig"

  /** The column names of the fixtures CSV, in order. */
  const HeaderColumns: seq<string> := ["Date", "Time", "Venue", "Ground", "Referee", "Team",
    "Competition Name", "Your Club Name", "Opponent", "Event Type"]

  /** The header line both CSV writers emit,
      "Date,Time,Venue,Ground,Referee,Team,Competition Name,Your Club Name,Opponent,Event Type",
      spelled out column by column. */
  const HeaderLine: string :=
    "Date" + "," + ("Time" + "," + ("Venue" + "," + ("Ground" + "," + ("Referee" + "," +
    ("Team" + "," + ("Competition Name" + "," + ("Your Club Name" + "," + ("Opponent" + "," +
    "Event Type"))))))))

  /** The header line is one line of text. */
  lemma HeaderLineKeepsOut()
    ensures '\n' !in HeaderLine && HeaderLine != ""
  {
    var t := "Opponent" + "," + "Event Type";
    ColumnKeepsOut("Opponent", t);
    t := "Your Club Name" + "," + t;
    ColumnKeepsOut("Your Club Name", t);
    t := "Competition Name" + "," + t;
    ColumnKeepsOut("Competition Name", t);
    t := "Team" + "," + t;
    ColumnKeepsOut("Team", t);
    t := "Referee" + "," + t;
    ColumnKeepsOut("Referee", t);
    t := "Ground" + "," + t;
    ColumnKeepsOut("Ground", t);
    t := "Venue" + "," + t;
    ColumnKeepsOut("Venue", t);
    t := "Time" + "," + t;
    ColumnKeepsOut("Time", t);
    assert HeaderLine == "Date" + "," + t;
  }

  /** A column name, a comma and a single-line rest make a single line. */
  lemma ColumnKeepsOut(name: string, rest: string)
    requires forall i :: 0 <= i < |name| ==> ' ' <= name[i]
    requires '\n' !in rest
    ensures '\n' !in name + "," + rest
  {
    assert forall i :: 0 <= i < |name| ==> name[i] != '\n';
  }

  /** The header line is the column names joined by commas. */
  lemma HeaderLineJoinsColumns()
    ensures HeaderLine == Join(HeaderColumns, ",")
  {
    assert HeaderColumns[8..][1..] == HeaderColumns[9..];
    assert HeaderColumns[7..][1..] == HeaderColumns[8..];
    assert HeaderColumns[6..][1..] == HeaderColumns[7..];
    assert HeaderColumns[5..][1..] == HeaderColumns[6..];
    assert HeaderColumns[4..][1..] == HeaderColumns[5..];
    assert HeaderColumns[3..][1..] == HeaderColumns[4..];
    assert HeaderColumns[2..][1..] == HeaderColumns[3..];
    assert HeaderColumns[1..][1..] == HeaderColumns[2..];
    assert HeaderColumns[0..][1..] == HeaderColumns[1..];
    assert HeaderColumns[0..] == HeaderColumns;
  }

  /** The ten column values of a fixture, in header order. */
  function Fields(f: Fixture): (fields: seq<string>)
    ensures |fields| == |HeaderColumns|
  {
    [f.date, f.time, f.venue, f.ground, f.referee, f.team, f.competition, f.clubName,
     f.opponent, f.eventType]
  }

  /** The fixture's CSV line: the fields joined by commas, unquoted. */
  function CsvLine(f: Fixture): string {
    Join(Fields(f), ",")
  }

  /** No field holds the delimiter or a line break, so the line survives a
      round trip through the CSV text. */
  predicate PlainFields(f: Fixture) {
    forall k :: 0 <= k < |Fields(f)| ==> ',' !in Fields(f)[k] && '\n' !in Fields(f)[k]
  }

  /** Splitting a fixture's line at the commas gives back its ten fields, so
      column i of the line is the header's column i. */
  lemma CsvLineFields(f: Fixture)
    requires PlainFields(f)
    ensures Split(CsvLine(f), ',') == Fields(f)
    ensures '\n' !in CsvLine(f)
  {
    SplitJoin(Fields(f), ',');
    JoinAvoids(Fields(f), ",", '\n');
  }

  /** A joined text holds a character only if a part or the separator does. */
  lemma {:induction false} JoinAvoids(parts: seq<string>, sep: string, c: char)
    requires c !in sep
    requires forall k :: 0 <= k < |parts| ==> c !in parts[k]
    ensures c !in Join(parts, sep)
  {
    if |parts| > 1 {
      JoinAvoids(parts[1..], sep, c);
    }
  }

  /** Splitting the header line at the commas gives the column names back. */
  lemma HeaderLineColumns()
    ensures Split(HeaderLine, ',') == HeaderColumns
  {
    forall k | 0 <= k < |HeaderColumns| ensures ',' !in HeaderColumns[k] {
    }
    SplitJoin(HeaderColumns, ',');
    HeaderLineJoinsColumns();
  }

  /** A CSV row as the reader returns it: column name to value. */
  type Row = map<string, string>

  /** `row.get(column, '')`. */
  function Get(row: Row, column: string): string {
    if column in row then row[column] else ""
  }

  /** The row the CSV reader gives for a fixture's line under the header. */
  function AsRow(f: Fixture): (row: Row)
    ensures row.Keys == set c | c in HeaderColumns
    ensures forall k :: 0 <= k < |HeaderColumns| ==> Get(row, HeaderColumns[k]) == Fields(f)[k]
  {
    map["Date" := f.date, "Time" := f.time, "Venue" := f.venue, "Ground" := f.ground,
        "Referee" := f.referee, "Team" := f.team, "Competition Name" := f.competition,
        "Your Club Name" := f.clubName, "Opponent" := f.opponent, "Event Type" := f.eventType]
  }
}
