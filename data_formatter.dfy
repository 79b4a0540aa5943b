/** The club-details formatter: each extracted field's text value is stripped
    and its whitespace runs collapse to single spaces, an e-mail field that only
    says "Click here" is dropped, and the scrape time is stamped on. */
module Formatter {
  import opened Wrappers
  import opened Text

  /** A club detail as the scraper hands it over: text, or some other value
      (such as None) that the formatter passes through untouched. */
  datatype Value = Str(s: string) | Other(id: int)

  /** The club details the formatter keeps, in order. */
  const FieldsToExtract: seq<string> := ["club_name", "address", "website", "email",
    "division", "colors", "coordinates", "profile_url", "fixtures", "competition_name"]

  /** The field the scrape time is stored under. */
  const ScrapedAt: string := "scraped_at"

  /** `raw_data.get(field, "")`. */
  function Lookup(raw: map<string, Value>, field: string): Value {
    if field in raw then raw[field] else Str("")
  }

  // ---------------------------------------------------------------------
  // Whitespace cleanup

  /** `' '.join(s.strip().split())`: the words of the text, one space apart. */
  function Clean(s: string): string {
    Join(Words(Strip(s)), " ")
  }

  /** A text of words joined by single spaces. */
  ghost predicate IsClean(t: string) {
    exists ws :: (forall k :: 0 <= k < |ws| ==> IsWord(ws[k])) && t == Join(ws, " ")
  }

  /** A word's length is where it ends, when a space or nothing follows it. */
  lemma {:induction false} WordLengthOfWord(w: string, t: string)
    requires IsWord(w) && (t == [] || IsSpace(t[0]))
    ensures WordLength(w + t) == |w|
  {
    assert (w + t)[0] == w[0];
    assert (w + t)[1..] == w[1..] + t;
    if |w| == 1 {
      assert w[1..] + t == t;
    } else {
      WordLengthOfWord(w[1..], t);
    }
  }

  /** Reading back the words of a space-joined text gives the words. */
  lemma {:induction false} WordsOfJoin(ws: seq<string>)
    requires forall k :: 0 <= k < |ws| ==> IsWord(ws[k])
    ensures Words(Join(ws, " ")) == ws
  {
    if |ws| == 1 {
      WordLengthOfWord(ws[0], []);
      assert ws[0] + [] == ws[0];
      assert ws[0][|ws[0]|..] == [];
    } else if |ws| > 1 {
      var w, rest := ws[0], Join(ws[1..], " ");
      WordsOfJoin(ws[1..]);
      var t := " " + rest;
      assert Join(ws, " ") == w + t;
      WordLengthOfWord(w, t);
      assert (w + t)[|w|..] == t;
      assert t[1..] == rest;
    }
  }

  /** A space-joined text of words is empty only without words, and has no
      whitespace at either end. */
  lemma {:induction false} JoinWordsEnds(ws: seq<string>)
    requires forall k :: 0 <= k < |ws| ==> IsWord(ws[k])
    ensures |ws| >= 1 ==> Join(ws, " ") != []
    ensures var t := Join(ws, " ");
      t == [] || (!IsSpace(t[0]) && !IsSpace(t[|t| - 1]))
  {
    if |ws| > 1 {
      JoinWordsEnds(ws[1..]);
      var rest := Join(ws[1..], " ");
      assert Join(ws, " ") == ws[0] + (" " + rest);
    }
  }

  /** A joined text holds only characters of its parts or its separator. */
  lemma {:induction false} JoinChars(parts: seq<string>, sep: string, c: char)
    requires c in Join(parts, sep)
    ensures c in sep || exists k :: 0 <= k < |parts| && c in parts[k]
  {
    if |parts| > 1 {
      var rest := Join(parts[1..], sep);
      assert Join(parts, sep) == parts[0] + sep + rest;
      if c in rest {
        JoinChars(parts[1..], sep, c);
        if c !in sep {
          var k :| 0 <= k < |parts[1..]| && c in parts[1..][k];
          assert parts[k + 1] == parts[1..][k];
        }
      }
    }
  }

  /** The cleaned text is clean. */
  lemma CleanIsClean(s: string)
    ensures IsClean(Clean(s))
  {
  }

  /** Cleaning leaves plain spaces as the only whitespace, so no line break or
      tab survives, and no space at either end. */
  lemma CleanWhitespace(s: string)
    ensures forall c :: IsSpace(c) && c != ' ' ==> c !in Clean(s)
    ensures '\n' !in Clean(s) && '\t' !in Clean(s)
    ensures var t := Clean(s); t == [] || (t[0] != ' ' && t[|t| - 1] != ' ')
  {
    var ws := Words(Strip(s));
    forall c | IsSpace(c) && c != ' ' ensures c !in Clean(s) {
      if c in Clean(s) {
        JoinChars(ws, " ", c);
      }
    }
    JoinWordsEnds(ws);
  }

  /** Cleaning a clean text changes nothing, so cleaning twice is cleaning once. */
  lemma CleanIdempotent(s: string)
    ensures Clean(Clean(s)) == Clean(s)
  {
    CleanKeepsClean(Clean(s));
  }

  /** A clean text is its own cleanup. */
  lemma CleanKeepsClean(t: string)
    requires IsClean(t)
    ensures Clean(t) == t
  {
    var ws :| (forall k :: 0 <= k < |ws| ==> IsWord(ws[k])) && t == Join(ws, " ");
    JoinWordsEnds(ws);
    StripUnchanged(t);
    WordsOfJoin(ws);
  }

  // ---------------------------------------------------------------------
  // One club

  /** What the formatter stores for a field: text cleaned up, other values as
      they are, and nothing for an e-mail that only links "Click here". */
  function CleanValue(field: string, value: Value): Option<Value> {
    match value
    case Other(_) => Some(value)
    case Str(s) =>
      var cleaned := Clean(s);
      if field == "email" && Contains(cleaned, "Click here") then None else Some(Str(cleaned))
  }

  /** The formatted fields of `fields`, each under its own name. */
  function CleanFields(raw: map<string, Value>, fields: seq<string>): map<string, Value> {
    if fields == [] then map[]
    else
      var field := fields[|fields| - 1];
      var m := CleanFields(raw, fields[..|fields| - 1]);
      match CleanValue(field, Lookup(raw, field))
      case None => m
      case Some(v) => m[field := v]
  }

  /** The formatted club: its cleaned fields and the scrape time. */
  function Formatted(raw: map<string, Value>, now: string): map<string, Value> {
    CleanFields(raw, FieldsToExtract)[ScrapedAt := Str(now)]
  }

  /** The formatter's loop over the extracted fields; `now` is the clock's
      reading. */
  method FormatClubData(raw: map<string, Value>, now: string)
    returns (formatted: map<string, Value>)
    ensures formatted == Formatted(raw, now)
  {
    formatted := map[];
    for i := 0 to |FieldsToExtract|
      invariant formatted == CleanFields(raw, FieldsToExtract[..i])
    {
      var field := FieldsToExtract[i];
      assert FieldsToExtract[..i + 1][..i] == FieldsToExtract[..i];
      var value := Lookup(raw, field);
      if value.Str? {
        var stripped := Strip(value.s);
        value := Str(Join(Words(stripped), " "));
        if field == "email" && Contains(value.s, "Click here") {
          continue;
        }
      }
      formatted := formatted[field := value];
    }
    assert FieldsToExtract[..|FieldsToExtract|] == FieldsToExtract;
    formatted := formatted[ScrapedAt := Str(now)];
  }

  /** A field is formatted exactly when it is one of `fields` and is not a
      dropped e-mail, and its value is the cleaned one. */
  lemma {:induction false} CleanFieldsMeaning(raw: map<string, Value>, fields: seq<string>)
    ensures forall f :: f in CleanFields(raw, fields) <==>
      f in fields && CleanValue(f, Lookup(raw, f)).Some?
    ensures forall f :: f in CleanFields(raw, fields) ==>
      CleanFields(raw, fields)[f] == CleanValue(f, Lookup(raw, f)).value
  {
    if fields != [] {
      var init := fields[..|fields| - 1];
      CleanFieldsMeaning(raw, init);
      assert fields == init + [fields[|fields| - 1]];
    }
  }

  /** The value stored for a field: the cleaned text (missing fields read as
      empty text), or the value itself when it is not text; a text e-mail that
      mentions "Click here" after cleanup is dropped. */
  lemma CleanValueMeaning(field: string, value: Value)
    ensures CleanValue(field, value).None? <==>
      field == "email" && value.Str? && Contains(Clean(value.s), "Click here")
    ensures value.Str? && CleanValue(field, value).Some? ==>
      CleanValue(field, value) == Some(Str(Clean(value.s)))
    ensures value.Other? ==> CleanValue(field, value) == Some(value)
  {
  }

  /** The formatted club holds the scrape time and only extracted fields; every
      extracted field but a dropped e-mail is present, with its cleaned value. */
  lemma FormattedMeaning(raw: map<string, Value>, now: string)
    ensures var out := Formatted(raw, now);
      ScrapedAt in out && out[ScrapedAt] == Str(now) &&
      (forall f :: f in out ==> f == ScrapedAt || f in FieldsToExtract) &&
      (forall f :: f in FieldsToExtract ==>
         (f in out <==> CleanValue(f, Lookup(raw, f)).Some?) &&
         (f in out ==> out[f] == CleanValue(f, Lookup(raw, f)).value))
  {
    CleanFieldsMeaning(raw, FieldsToExtract);
    ScrapedAtNotExtracted();
  }

  lemma ScrapedAtNotExtracted()
    ensures ScrapedAt !in FieldsToExtract
  {
  }

  /** Every text the formatter stores for an extracted field is clean: one line,
      no tabs, single spaces, and cleaning it again changes nothing. A club's
      multi-line fixtures CSV is stored flattened onto one line. */
  lemma FormattedIsOneLine(raw: map<string, Value>, now: string, f: string)
    requires f in FieldsToExtract && f in Formatted(raw, now)
    requires Formatted(raw, now)[f].Str?
    ensures var t := Formatted(raw, now)[f].s;
      '\n' !in t && '\t' !in t && Clean(t) == t
  {
    FormattedMeaning(raw, now);
    var value := Lookup(raw, f);
    CleanValueMeaning(f, value);
    CleanWhitespace(value.s);
    CleanIdempotent(value.s);
  }

  // ---------------------------------------------------------------------
  // The CSV export

  /** What the CSV writer is given: the column names and one row per club. */
  datatype CsvTable = CsvTable(fieldNames: seq<string>, rows: seq<map<string, Value>>)

  /** Formats every club for the CSV; an empty list writes nothing. */
  method SaveToCsv(clubs: seq<map<string, Value>>, now: string) returns (table: Option<CsvTable>)
    ensures clubs == [] <==> table.None?
    ensures table.Some? ==>
      table.value.fieldNames == FieldsToExtract + [ScrapedAt] &&
      |table.value.rows| == |clubs| &&
      forall i :: 0 <= i < |clubs| ==> table.value.rows[i] == Formatted(clubs[i], now)
  {
    if clubs == [] {
      return None;
    }
    var rows: seq<map<string, Value>> := [];
    for i := 0 to |clubs|
      invariant |rows| == i
      invariant forall j :: 0 <= j < i ==> rows[j] == Formatted(clubs[j], now)
    {
      var row := FormatClubData(clubs[i], now);
      rows := rows + [row];
    }
    table := Some(CsvTable(FieldsToExtract + [ScrapedAt], rows));
  }

  /** Every key of every formatted club is one of the writer's column names, so
      the writer never meets a field it does not know. */
  lemma RowsFitColumns(clubs: seq<map<string, Value>>, now: string)
    ensures forall i, f :: 0 <= i < |clubs| && f in Formatted(clubs[i], now) ==>
      f in FieldsToExtract + [ScrapedAt]
  {
    forall i, f | 0 <= i < |clubs| && f in Formatted(clubs[i], now)
      ensures f in FieldsToExtract + [ScrapedAt]
    {
      FormattedMeaning(clubs[i], now);
    }
  }
}
