/** The differential upload tool for ClubZap: fixtures are keyed by
    (date, team, opponent, competition), the current fixtures CSV is compared
    with the baseline of what was last uploaded, and the differences are split
    into new, changed, postponed, removed and unchanged fixtures. New, changed
    and removed fixtures go to export files; marking the current fixtures as
    uploaded replaces the baseline wholesale. */
module Sync {
  import opened Wrappers
  import opened Text
  import opened Fixtures

  /** The columns whose stripped values identify a fixture. */
  const KeyColumns: seq<string> := ["Date", "Team", "Opponent", "Competition Name"]

  /** The columns whose changes matter for an update, in report order. */
  const ChangeColumns: seq<string> := ["Time", "Venue", "Ground", "Referee"]

  /** A fixture's identity: its date, team, opponent and competition. */
  datatype Key = Key(date: string, team: string, opponent: string, competition: string)

  /** `fixture_key`: the key columns of a row, each stripped, a missing column as "". */
  function FixtureKey(row: Row): Key {
    Key(Strip(Get(row, "Date")), Strip(Get(row, "Team")), Strip(Get(row, "Opponent")),
        Strip(Get(row, "Competition Name")))
  }

  /** Every part of a key is already stripped. */
  lemma KeyIsStripped(row: Row)
    ensures var k := FixtureKey(row);
      Strip(k.date) == k.date && Strip(k.team) == k.team &&
      Strip(k.opponent) == k.opponent && Strip(k.competition) == k.competition
  {
    StripIdempotent(Get(row, "Date"));
    StripIdempotent(Get(row, "Team"));
    StripIdempotent(Get(row, "Opponent"));
    StripIdempotent(Get(row, "Competition Name"));
  }

  /** Two rows share a key exactly when their key columns agree after strip;
      the other columns play no part. */
  lemma SameKey(a: Row, b: Row)
    ensures FixtureKey(a) == FixtureKey(b) <==>
      forall c :: c in KeyColumns ==> Strip(Get(a, c)) == Strip(Get(b, c))
  {
    if FixtureKey(a) == FixtureKey(b) {
      forall c | c in KeyColumns ensures Strip(Get(a, c)) == Strip(Get(b, c)) {
        assert c == "Date" || c == "Team" || c == "Opponent" || c == "Competition Name";
      }
    }
  }

  /** Whitespace around a key column's value does not change the key. */
  lemma KeyIgnoresPadding(row: Row, c: string, pre: string, post: string)
    requires c in row
    requires forall i :: 0 <= i < |pre| ==> IsSpace(pre[i])
    requires forall i :: 0 <= i < |post| ==> IsSpace(post[i])
    ensures FixtureKey(row[c := pre + row[c] + post]) == FixtureKey(row)
  {
    StripPadded(pre, row[c], post);
    SameKey(row[c := pre + row[c] + post], row);
  }

  /** Fixtures of one file, by key. */
  type Snapshot = map<Key, Row>

  /** The dictionary a sequence of rows gives when each row is stored under
      `key` of that row, a later row replacing an earlier one. */
  function IndexBy(rows: seq<Row>, key: Row -> Key): (s: Snapshot)
    ensures forall k :: k in s ==> key(s[k]) == k
  {
    if rows == [] then map[]
    else
      var last := rows[|rows| - 1];
      var before := IndexBy(rows[..|rows| - 1], key);
      var after := before[key(last) := last];
      assert forall k :: k in after ==> key(after[k]) == k by {
        forall k | k in after ensures key(after[k]) == k {
          if k != key(last) {
            assert after[k] == before[k];
          }
        }
      }
      after
  }

  /** The dictionary `read_csv_fixtures` builds from a file's rows. */
  function SnapshotOf(rows: seq<Row>): Snapshot {
    IndexBy(rows, FixtureKey)
  }

  /** Row `i` is the last of `rows` whose key is `k`. */
  predicate LastWithKey(rows: seq<Row>, key: Row -> Key, k: Key, i: int) {
    0 <= i < |rows| && key(rows[i]) == k &&
    forall j :: i < j < |rows| ==> key(rows[j]) != k
  }

  /** The dictionary has an entry for exactly the keys of the rows, and each
      entry is the last row with that key. */
  lemma {:induction false} IndexEntries(rows: seq<Row>, key: Row -> Key, k: Key)
    ensures k in IndexBy(rows, key) <==> exists i :: 0 <= i < |rows| && key(rows[i]) == k
    ensures k in IndexBy(rows, key) ==>
      exists i :: LastWithKey(rows, key, k, i) && IndexBy(rows, key)[k] == rows[i]
  {
    if rows != [] {
      var n := |rows| - 1;
      var front := rows[..n];
      IndexEntries(front, key, k);
      if key(rows[n]) == k {
        assert LastWithKey(rows, key, k, n);
      } else if k in IndexBy(front, key) {
        var i :| LastWithKey(front, key, k, i) && IndexBy(front, key)[k] == front[i];
        assert rows[i] == front[i];
        assert LastWithKey(rows, key, k, i);
      } else {
        forall i | 0 <= i < |rows| ensures key(rows[i]) != k {
          if i < n {
            assert rows[i] == front[i];
          }
        }
      }
      if exists i :: 0 <= i < |front| && key(front[i]) == k {
        var i :| 0 <= i < |front| && key(front[i]) == k;
        assert rows[i] == front[i];
      }
    }
  }

  /** The dictionary has no more entries than there are rows. */
  lemma {:induction false} IndexSize(rows: seq<Row>, key: Row -> Key)
    ensures |IndexBy(rows, key)| <= |rows|
  {
    if rows != [] {
      IndexSize(rows[..|rows| - 1], key);
    }
  }

  /** Rows with pairwise distinct keys each get an entry: nothing is lost. */
  lemma {:induction false} IndexDistinctKeys(rows: seq<Row>, key: Row -> Key)
    requires forall i, j :: 0 <= i < j < |rows| ==> key(rows[i]) != key(rows[j])
    ensures |IndexBy(rows, key)| == |rows|
  {
    if rows != [] {
      var n := |rows| - 1;
      var front := rows[..n];
      IndexDistinctKeys(front, key);
      IndexEntries(front, key, key(rows[n]));
    }
  }

  /** `read_csv_fixtures` once the file is open: fill the dictionary row by row. */
  method ReadFixtures(rows: seq<Row>) returns (fixtures: Snapshot)
    ensures fixtures == SnapshotOf(rows)
  {
    fixtures := map[];
    var i := 0;
    while i < |rows|
      invariant 0 <= i <= |rows|
      invariant fixtures == SnapshotOf(rows[..i])
    {
      var row := rows[i];
      assert rows[..i + 1][..i] == rows[..i];
      fixtures := fixtures[FixtureKey(row) := row];
      i := i + 1;
    }
    assert rows[..i] == rows;
  }

  /** A file's fixtures; a file that does not exist has none. */
  function ReadSnapshot(file: Option<seq<Row>>): (s: Snapshot)
    ensures file.None? ==> s == map[]
  {
    match file
    case None => map[]
    case Some(rows) => SnapshotOf(rows)
  }

  /** `read_csv_fixtures`: no file gives the empty dictionary, else the rows are read. */
  method ReadCsvFixtures(file: Option<seq<Row>>) returns (fixtures: Snapshot)
    ensures fixtures == ReadSnapshot(file)
  {
    if file.None? {
      return map[];
    }
    fixtures := ReadFixtures(file.value);
  }

  /** The cancellation marker the monitor writes into the Time column,
      compared without stripping. */
  predicate IsPostponed(row: Row) {
    Get(row, "Time") == "Postponed"
  }

  /** The report line for one changed column: `col: 'old' -> 'new'`. */
  function ChangeEntry(column: string, oldValue: string, newValue: string): string {
    column + ": '" + oldValue + "' -> '" + newValue + "'"
  }

  /** Column `c` holds different values in the two rows once stripped. */
  predicate Differs(oldRow: Row, newRow: Row, c: string) {
    Strip(Get(oldRow, c)) != Strip(Get(newRow, c))
  }

  /** The entries for the columns of `columns` that differ, in column order. */
  function ChangesIn(columns: seq<string>, oldRow: Row, newRow: Row): seq<string> {
    if columns == [] then []
    else
      var c := columns[0];
      var o, n := Strip(Get(oldRow, c)), Strip(Get(newRow, c));
      (if o != n then [ChangeEntry(c, o, n)] else []) + ChangesIn(columns[1..], oldRow, newRow)
  }

  /** The changes `diff_fixtures` lists for a fixture found in both snapshots. */
  function Changes(oldRow: Row, newRow: Row): seq<string> {
    ChangesIn(ChangeColumns, oldRow, newRow)
  }

  /** No entries exactly when no column differs. */
  lemma {:induction false} ChangesInEmpty(columns: seq<string>, oldRow: Row, newRow: Row)
    ensures ChangesIn(columns, oldRow, newRow) == [] <==>
      forall k :: 0 <= k < |columns| ==> !Differs(oldRow, newRow, columns[k])
  {
    if columns != [] {
      ChangesInEmpty(columns[1..], oldRow, newRow);
      if !Differs(oldRow, newRow, columns[0]) {
        forall k | 0 <= k < |columns| ensures !Differs(oldRow, newRow, columns[k]) <==>
          (k == 0 || !Differs(oldRow, newRow, columns[1..][k - 1]))
        {
        }
      }
    }
  }

  /** Every differing column has its entry, with the stripped old and new values. */
  lemma {:induction false} ChangesInListed(columns: seq<string>, oldRow: Row, newRow: Row, k: nat)
    requires k < |columns| && Differs(oldRow, newRow, columns[k])
    ensures ChangeEntry(columns[k], Strip(Get(oldRow, columns[k])), Strip(Get(newRow, columns[k])))
      in ChangesIn(columns, oldRow, newRow)
  {
    if k > 0 {
      ChangesInListed(columns[1..], oldRow, newRow, k - 1);
    }
  }

  /** Every entry is the entry of a differing column. */
  lemma {:induction false} ChangesInOnlyDiffering(columns: seq<string>, oldRow: Row, newRow: Row, e: string)
    requires e in ChangesIn(columns, oldRow, newRow)
    ensures exists k :: 0 <= k < |columns| && Differs(oldRow, newRow, columns[k]) &&
                        e == ChangeEntry(columns[k], Strip(Get(oldRow, columns[k])), Strip(Get(newRow, columns[k])))
  {
    var c := columns[0];
    var o, n := Strip(Get(oldRow, c)), Strip(Get(newRow, c));
    if o != n && e == ChangeEntry(c, o, n) {
      assert Differs(oldRow, newRow, columns[0]);
    } else {
      assert e in ChangesIn(columns[1..], oldRow, newRow);
      ChangesInOnlyDiffering(columns[1..], oldRow, newRow, e);
      var k :| 0 <= k < |columns[1..]| && Differs(oldRow, newRow, columns[1..][k]) &&
        e == ChangeEntry(columns[1..][k], Strip(Get(oldRow, columns[1..][k])), Strip(Get(newRow, columns[1..][k])));
      assert columns[k + 1] == columns[1..][k];
    }
  }

  /** There is at most one entry per column. */
  lemma {:induction false} ChangesInLength(columns: seq<string>, oldRow: Row, newRow: Row)
    ensures |ChangesIn(columns, oldRow, newRow)| <= |columns|
  {
    if columns != [] {
      ChangesInLength(columns[1..], oldRow, newRow);
    }
  }

  /** A fixture has changes exactly when one of Time, Venue, Ground or Referee
      differs after strip. */
  lemma ChangesEmpty(oldRow: Row, newRow: Row)
    ensures Changes(oldRow, newRow) == [] <==>
      forall c :: c in ChangeColumns ==> !Differs(oldRow, newRow, c)
  {
    ChangesInEmpty(ChangeColumns, oldRow, newRow);
    if forall k :: 0 <= k < |ChangeColumns| ==> !Differs(oldRow, newRow, ChangeColumns[k]) {
      forall c | c in ChangeColumns ensures !Differs(oldRow, newRow, c) {
        var k :| 0 <= k < |ChangeColumns| && ChangeColumns[k] == c;
      }
    }
  }

  /** A row compared with itself has no changes. */
  lemma NoChangesWithItself(row: Row)
    ensures Changes(row, row) == []
  {
    ChangesInEmpty(ChangeColumns, row, row);
  }

  /** The entry for one column: one when it differs after strip, else none. */
  function ChangeFor(c: string, oldRow: Row, newRow: Row): seq<string> {
    var o, n := Strip(Get(oldRow, c)), Strip(Get(newRow, c));
    if o != n then [ChangeEntry(c, o, n)] else []
  }

  /** Concatenation is associative. */
  lemma AppendAssoc<T>(a: seq<T>, b: seq<T>, c: seq<T>)
    ensures a + (b + c) == (a + b) + c
  {
  }

  /** One more column adds its entry at the end when it differs. */
  lemma {:induction false} ChangesInSnoc(columns: seq<string>, c: string, oldRow: Row, newRow: Row)
    ensures ChangesIn(columns + [c], oldRow, newRow) == ChangesIn(columns, oldRow, newRow) + ChangeFor(c, oldRow, newRow)
  {
    if columns == [] {
      assert columns + [c] == [c];
      assert [c][1..] == [];
    } else {
      assert (columns + [c])[0] == columns[0];
      assert (columns + [c])[1..] == columns[1..] + [c];
      ChangesInSnoc(columns[1..], c, oldRow, newRow);
      AppendAssoc(ChangeFor(columns[0], oldRow, newRow), ChangesIn(columns[1..], oldRow, newRow),
        ChangeFor(c, oldRow, newRow));
    }
  }

  /** The column loop of `diff_fixtures` for one fixture. */
  method CompareColumns(columns: seq<string>, oldRow: Row, newRow: Row) returns (changes: seq<string>)
    ensures changes == ChangesIn(columns, oldRow, newRow)
  {
    changes := [];
    for i := 0 to |columns|
      invariant changes == ChangesIn(columns[..i], oldRow, newRow)
    {
      var column := columns[i];
      var oldValue := Strip(Get(oldRow, column));
      var newValue := Strip(Get(newRow, column));
      assert columns[..i + 1] == columns[..i] + [column];
      ChangesInSnoc(columns[..i], column, oldRow, newRow);
      if oldValue != newValue {
        changes := changes + [ChangeEntry(column, oldValue, newValue)];
      }
    }
    assert columns[..|columns|] == columns;
  }

  /** What `diff_fixtures` makes of one current fixture. */
  datatype Verdict = New | Changed | Postponed | Unchanged

  /** The branches of `diff_fixtures` for the current fixture `row` with key
      `key`: a key the baseline lacks gives a new fixture unless the row is
      postponed; a key the baseline holds gives a postponed, changed or
      unchanged fixture, in that order of precedence. */
  function Classify(row: Row, baseline: Snapshot, key: Key): Verdict {
    if key !in baseline then
      if IsPostponed(row) then Postponed else New
    else if IsPostponed(row) then Postponed
    else if Changes(baseline[key], row) != [] then Changed
    else Unchanged
  }

  /** The fixtures outside `pending` that `diff_fixtures` puts under verdict `v`. */
  function Part(current: Snapshot, baseline: Snapshot, pending: set<Key>, v: Verdict): Snapshot {
    map k | k in current && k !in pending && Classify(current[k], baseline, k) == v :: current[k]
  }

  /** A fixture present in both snapshots whose change columns differ, with its
      change entries. */
  datatype ChangedFixture = ChangedFixture(row: Row, changes: seq<string>)

  /** The changed fixtures outside `pending`, each with its entries. */
  function ChangedPart(current: Snapshot, baseline: Snapshot, pending: set<Key>): map<Key, ChangedFixture> {
    map k | k in current && k !in pending && k in baseline && Classify(current[k], baseline, k) == Changed ::
      ChangedFixture(current[k], Changes(baseline[k], current[k]))
  }

  /** The baseline fixtures whose key is gone from the current snapshot. */
  function Removed(current: Snapshot, baseline: Snapshot): Snapshot {
    map k | k in baseline && k !in current :: baseline[k]
  }

  /** What `diff_fixtures` computes: the four lists (here by key) and the
      unchanged count. */
  datatype DiffResult = DiffResult(
    newFixtures: Snapshot,
    changedFixtures: map<Key, ChangedFixture>,
    postponedFixtures: Snapshot,
    removedFixtures: Snapshot,
    unchangedCount: nat)

  /** The lists and count once every fixture but those with keys in `pending` is classified. */
  function Tally(current: Snapshot, baseline: Snapshot, pending: set<Key>): DiffResult {
    DiffResult(
      Part(current, baseline, pending, New),
      ChangedPart(current, baseline, pending),
      Part(current, baseline, pending, Postponed),
      map[],
      |Part(current, baseline, pending, Unchanged)|)
  }

  /** The diff of the current snapshot against the baseline. */
  function Diff(current: Snapshot, baseline: Snapshot): DiffResult {
    Tally(current, baseline, {}).(removedFixtures := Removed(current, baseline))
  }

  /** Classifying one more fixture adds it to the part of its verdict ... */
  lemma PartGrows(current: Snapshot, baseline: Snapshot, pending: set<Key>, key: Key, v: Verdict)
    requires key in current && key in pending && Classify(current[key], baseline, key) == v
    ensures Part(current, baseline, pending - {key}, v) == Part(current, baseline, pending, v)[key := current[key]]
    ensures key !in Part(current, baseline, pending, v)
  {
  }

  /** ... and leaves the other parts as they were. */
  lemma PartKept(current: Snapshot, baseline: Snapshot, pending: set<Key>, key: Key, v: Verdict)
    requires key in current && Classify(current[key], baseline, key) != v
    ensures Part(current, baseline, pending - {key}, v) == Part(current, baseline, pending, v)
  {
  }

  lemma ChangedPartKept(current: Snapshot, baseline: Snapshot, pending: set<Key>, key: Key)
    requires key in current && Classify(current[key], baseline, key) != Changed
    ensures ChangedPart(current, baseline, pending - {key}) == ChangedPart(current, baseline, pending)
  {
  }

  /** The tally after classifying one more fixture, one lemma per verdict. */
  lemma TallyNew(current: Snapshot, baseline: Snapshot, pending: set<Key>, key: Key)
    requires key in current && key in pending && Classify(current[key], baseline, key) == New
    ensures var t := Tally(current, baseline, pending);
      Tally(current, baseline, pending - {key}) == t.(newFixtures := t.newFixtures[key := current[key]])
  {
    PartGrows(current, baseline, pending, key, New);
    PartKept(current, baseline, pending, key, Postponed);
    PartKept(current, baseline, pending, key, Unchanged);
    ChangedPartKept(current, baseline, pending, key);
  }

  lemma TallyPostponed(current: Snapshot, baseline: Snapshot, pending: set<Key>, key: Key)
    requires key in current && key in pending && Classify(current[key], baseline, key) == Postponed
    ensures var t := Tally(current, baseline, pending);
      Tally(current, baseline, pending - {key}) == t.(postponedFixtures := t.postponedFixtures[key := current[key]])
  {
    PartGrows(current, baseline, pending, key, Postponed);
    PartKept(current, baseline, pending, key, New);
    PartKept(current, baseline, pending, key, Unchanged);
    ChangedPartKept(current, baseline, pending, key);
  }

  lemma TallyChanged(current: Snapshot, baseline: Snapshot, pending: set<Key>, key: Key)
    requires key in current && key in baseline && key in pending
    requires Classify(current[key], baseline, key) == Changed
    ensures var t := Tally(current, baseline, pending);
      Tally(current, baseline, pending - {key}) == t.(changedFixtures := t.changedFixtures[key :=
        ChangedFixture(current[key], Changes(baseline[key], current[key]))])
  {
    PartKept(current, baseline, pending, key, New);
    PartKept(current, baseline, pending, key, Postponed);
    PartKept(current, baseline, pending, key, Unchanged);
  }

  lemma TallyUnchanged(current: Snapshot, baseline: Snapshot, pending: set<Key>, key: Key)
    requires key in current && key in pending && Classify(current[key], baseline, key) == Unchanged
    ensures var t := Tally(current, baseline, pending);
      Tally(current, baseline, pending - {key}) == t.(unchangedCount := t.unchangedCount + 1)
  {
    PartKept(current, baseline, pending, key, New);
    PartKept(current, baseline, pending, key, Postponed);
    PartGrows(current, baseline, pending, key, Unchanged);
    ChangedPartKept(current, baseline, pending, key);
  }

  /** Before the loop nothing is classified. */
  lemma TallyNone(current: Snapshot, baseline: Snapshot)
    ensures Tally(current, baseline, current.Keys) == DiffResult(map[], map[], map[], map[], 0)
  {
    assert Part(current, baseline, current.Keys, New) == map[];
    assert Part(current, baseline, current.Keys, Postponed) == map[];
    assert Part(current, baseline, current.Keys, Unchanged) == map[];
    assert ChangedPart(current, baseline, current.Keys) == map[];
  }

  /** The first loop of `diff_fixtures`, over the current fixtures. */
  method ClassifyAll(current: Snapshot, baseline: Snapshot) returns (tally: DiffResult)
    ensures tally == Tally(current, baseline, {})
  {
    tally := DiffResult(map[], map[], map[], map[], 0);
    TallyNone(current, baseline);
    var todo := current.Keys;
    while todo != {}
      invariant todo <= current.Keys
      invariant tally == Tally(current, baseline, todo)
      decreases todo
    {
      var key :| key in todo;
      var row := current[key];
      if key !in baseline {
        if Get(row, "Time") == "Postponed" {
          TallyPostponed(current, baseline, todo, key);
          tally := tally.(postponedFixtures := tally.postponedFixtures[key := row]);
        } else {
          TallyNew(current, baseline, todo, key);
          tally := tally.(newFixtures := tally.newFixtures[key := row]);
        }
      } else if Get(row, "Time") == "Postponed" {
        TallyPostponed(current, baseline, todo, key);
        tally := tally.(postponedFixtures := tally.postponedFixtures[key := row]);
      } else {
        var changes := CompareColumns(ChangeColumns, baseline[key], row);
        if changes != [] {
          TallyChanged(current, baseline, todo, key);
          tally := tally.(changedFixtures := tally.changedFixtures[key := ChangedFixture(row, changes)]);
        } else {
          TallyUnchanged(current, baseline, todo, key);
          tally := tally.(unchangedCount := tally.unchangedCount + 1);
        }
      }
      todo := todo - {key};
    }
  }

  /** The second loop of `diff_fixtures`, over the baseline. */
  method RemovedFixtures(current: Snapshot, baseline: Snapshot) returns (removed: Snapshot)
    ensures removed == Removed(current, baseline)
  {
    removed := map[];
    ghost var seen: set<Key> := {};
    var rest := baseline.Keys;
    while rest != {}
      invariant rest <= baseline.Keys && seen == baseline.Keys - rest
      invariant removed == map k | k in seen && k in baseline && k !in current :: baseline[k]
      decreases rest
    {
      var key :| key in rest;
      if key !in current {
        removed := removed[key := baseline[key]];
      }
      rest := rest - {key};
      seen := seen + {key};
    }
  }

  /** The comparison `diff_fixtures` makes. */
  method ComputeDiff(current: Snapshot, baseline: Snapshot) returns (d: DiffResult)
    ensures d == Diff(current, baseline)
  {
    d := ClassifyAll(current, baseline);
    var removedFixtures := RemovedFixtures(current, baseline);
    d := d.(removedFixtures := removedFixtures);
  }

  /** A fixture is new exactly when it is in the current snapshot, not in the
      baseline, and not postponed. */
  lemma NewFixtures(current: Snapshot, baseline: Snapshot, k: Key)
    ensures var d := Diff(current, baseline);
      (k in d.newFixtures <==> k in current && k !in baseline && !IsPostponed(current[k])) &&
      (k in d.newFixtures ==> d.newFixtures[k] == current[k])
  {
  }

  /** A postponed current fixture is reported as postponed whether or not the
      baseline holds it, and never as new or changed. */
  lemma PostponedFirst(current: Snapshot, baseline: Snapshot, k: Key)
    ensures var d := Diff(current, baseline);
      (k in d.postponedFixtures <==> k in current && IsPostponed(current[k])) &&
      (k in d.postponedFixtures ==> k !in d.newFixtures && k !in d.changedFixtures)
  {
  }

  /** A fixture is changed exactly when both snapshots hold it, it is not
      postponed, and one of Time, Venue, Ground or Referee differs after strip;
      its entries are those of `Changes`. */
  lemma ChangedFixtures(current: Snapshot, baseline: Snapshot, k: Key)
    ensures var d := Diff(current, baseline);
      (k in d.changedFixtures <==>
         (k in current && k in baseline && !IsPostponed(current[k]) &&
          exists c :: c in ChangeColumns && Differs(baseline[k], current[k], c))) &&
      (k in d.changedFixtures ==>
        d.changedFixtures[k] == ChangedFixture(current[k], Changes(baseline[k], current[k])))
  {
    if k in current && k in baseline {
      ChangesEmpty(baseline[k], current[k]);
    }
  }

  /** The removed fixtures are the baseline's fixtures whose key the current
      snapshot lacks. */
  lemma RemovedFixturesAreGone(current: Snapshot, baseline: Snapshot)
    ensures var d := Diff(current, baseline);
      d.removedFixtures.Keys == baseline.Keys - current.Keys &&
      forall k :: k in d.removedFixtures ==> d.removedFixtures[k] == baseline[k]
  {
    assert Diff(current, baseline).removedFixtures.Keys == baseline.Keys - current.Keys;
  }

  /** The keys of the current fixtures each `diff_fixtures` leaves unchanged. */
  function UnchangedKeys(current: Snapshot, baseline: Snapshot): set<Key> {
    Part(current, baseline, {}, Unchanged).Keys
  }

  /** Every current fixture is counted exactly once: new, changed, postponed
      and unchanged add up to the size of the current snapshot. */
  lemma DiffCounts(current: Snapshot, baseline: Snapshot)
    ensures var d := Diff(current, baseline);
      |d.newFixtures| + |d.changedFixtures| + |d.postponedFixtures| + d.unchangedCount == |current|
  {
    var d := Diff(current, baseline);
    PartsCover(current, baseline);
    PartsDisjoint(current, baseline);
    FourWaySplit(current.Keys, d.newFixtures.Keys, d.changedFixtures.Keys, d.postponedFixtures.Keys,
      UnchangedKeys(current, baseline));
  }

  /** Every current fixture gets one of the four verdicts. */
  lemma PartsCover(current: Snapshot, baseline: Snapshot)
    ensures current.Keys == Part(current, baseline, {}, New).Keys + ChangedPart(current, baseline, {}).Keys +
      Part(current, baseline, {}, Postponed).Keys + Part(current, baseline, {}, Unchanged).Keys
  {
    forall k | k in current
      ensures k in Part(current, baseline, {}, New) || k in ChangedPart(current, baseline, {}) ||
        k in Part(current, baseline, {}, Postponed) || k in Part(current, baseline, {}, Unchanged)
    {
      var v := Classify(current[k], baseline, k);
      assert k in Part(current, baseline, {}, v);
    }
  }

  /** No current fixture gets two verdicts. */
  lemma PartsDisjoint(current: Snapshot, baseline: Snapshot)
    ensures var d := Diff(current, baseline);
      var n, c, p, u := d.newFixtures.Keys, d.changedFixtures.Keys, d.postponedFixtures.Keys,
        UnchangedKeys(current, baseline);
      n !! c && n !! p && n !! u && c !! p && c !! u && p !! u
  {
  }

  /** The sizes of four disjoint sets add up to the size of their union. */
  lemma FourWaySplit(all: set<Key>, n: set<Key>, c: set<Key>, p: set<Key>, u: set<Key>)
    requires all == n + c + p + u
    requires n !! c && n !! p && n !! u && c !! p && c !! u && p !! u
    ensures |n| + |c| + |p| + |u| == |all|
  {
    assert |n + c| == |n| + |c|;
    assert |n + c + p| == |n + c| + |p|;
  }

  /** With no baseline every fixture is new or postponed: nothing is changed,
      removed or unchanged. */
  lemma FirstRun(current: Snapshot)
    ensures var d := Diff(current, map[]);
      d.changedFixtures == map[] && d.removedFixtures == map[] && d.unchangedCount == 0 &&
      |d.newFixtures| + |d.postponedFixtures| == |current|
  {
    var d := Diff(current, map[]);
    DiffCounts(current, map[]);
    assert d.changedFixtures == map[];
    assert Part(current, map[], {}, Unchanged) == map[];
  }

  /** Right after the current fixtures are marked as uploaded, the diff finds
      nothing new, changed or removed; only postponed fixtures are reported. */
  lemma InSyncAfterUpload(current: Snapshot)
    ensures var d := Diff(current, current);
      d.newFixtures == map[] && d.changedFixtures == map[] && d.removedFixtures == map[] &&
      d.unchangedCount + |d.postponedFixtures| == |current|
  {
    var d := Diff(current, current);
    forall k | k in current ensures Classify(current[k], current, k) != Changed {
      NoChangesWithItself(current[k]);
    }
    assert d.newFixtures == map[];
    assert d.changedFixtures == map[];
    assert d.removedFixtures == map[];
    DiffCounts(current, current);
  }

  /** The number of new fixtures the first-run report announces, as written:
      every current fixture. */
  function FirstRunAnnounced(current: Snapshot): nat {
    |current|
  }

  /** On a first run with a postponed fixture, the report announces more new
      fixtures than the new-fixtures export holds. */
  lemma FirstRunOverstates(current: Snapshot, k: Key)
    requires k in current && IsPostponed(current[k])
    ensures FirstRunAnnounced(current) > |Diff(current, map[]).newFixtures|
  {
    FirstRun(current);
    PostponedFirst(current, map[], k);
  }

  /** The number of new fixtures a first run should announce: those in the
      new-fixtures export. */
  function FirstRunNewCount(current: Snapshot): nat {
    |Diff(current, map[]).newFixtures|
  }

  /** The corrected first-run count is every current fixture but the postponed
      ones, and it is zero exactly when the new-fixtures export is not written. */
  lemma FirstRunNewCountMeaning(current: Snapshot, files: map<ExportFile, Snapshot>)
    ensures FirstRunNewCount(current) == |current| - |Diff(current, map[]).postponedFixtures|
    ensures FirstRunNewCount(current) > 0 <==> NewExport in ExportsAfter(files, Diff(current, map[]))
  {
    FirstRun(current);
    ExportsMatchDiff(files, Diff(current, map[]));
    var n := Diff(current, map[]).newFixtures;
    if n != map[] {
      var k :| k in n;
    }
  }

  /** The quick counts `show_status` prints once a baseline exists. */
  datatype QuickDiff = QuickDiff(newCount: nat, removedCount: nat)

  /** What `show_status` reports: both sizes, and the quick counts when the
      baseline is not empty. */
  datatype Status = Status(currentCount: nat, baselineCount: nat, quick: Option<QuickDiff>)

  function StatusOf(current: Snapshot, baseline: Snapshot): Status {
    Status(|current|, |baseline|,
      if baseline == map[] then None
      else Some(QuickDiff(|current.Keys - baseline.Keys|, |baseline.Keys - current.Keys|)))
  }

  /** The status's removed count agrees with the diff, but its new count also
      takes in the postponed fixtures the baseline lacks, which the diff leaves
      out of the new fixtures. */
  lemma StatusAgainstDiff(current: Snapshot, baseline: Snapshot)
    requires baseline != map[]
    ensures var d := Diff(current, baseline);
      var q := StatusOf(current, baseline).quick.value;
      q.removedCount == |d.removedFixtures| &&
      q.newCount == |d.newFixtures| + |d.postponedFixtures.Keys - baseline.Keys|
  {
    var d := Diff(current, baseline);
    assert d.removedFixtures.Keys == baseline.Keys - current.Keys;
    UnlistedAreNewOrPostponed(current, baseline);
    var n, p := d.newFixtures.Keys, d.postponedFixtures.Keys - baseline.Keys;
    PartsDisjoint(current, baseline);
    assert |n + p| == |n| + |p|;
  }

  /** The fixtures missing from the baseline are exactly the new ones and the
      postponed ones the baseline lacks. */
  lemma UnlistedAreNewOrPostponed(current: Snapshot, baseline: Snapshot)
    ensures current.Keys - baseline.Keys ==
      Part(current, baseline, {}, New).Keys + (Part(current, baseline, {}, Postponed).Keys - baseline.Keys)
  {
    forall k | k in current && k !in baseline
      ensures k in Part(current, baseline, {}, New) || k in Part(current, baseline, {}, Postponed)
    {
      var v := Classify(current[k], baseline, k);
      assert k in Part(current, baseline, {}, v);
    }
  }

  /** The three export files `diff_fixtures` writes or deletes. */
  datatype ExportFile = NewExport | ChangedExport | RemovedExport

  /** A file holding `rows` when there are any, else no file. */
  function WriteOrDelete(files: map<ExportFile, Snapshot>, f: ExportFile, rows: Snapshot): map<ExportFile, Snapshot> {
    if rows != map[] then files[f := rows] else files - {f}
  }

  /** The rows of the changed fixtures, without their entries. */
  function ChangedRows(changed: map<Key, ChangedFixture>): (rows: Snapshot)
    ensures rows.Keys == changed.Keys
    ensures forall k :: k in rows ==> rows[k] == changed[k].row
  {
    map k | k in changed :: changed[k].row
  }

  /** The export files after `diff_fixtures` has written its diff. */
  function ExportsAfter(files: map<ExportFile, Snapshot>, d: DiffResult): map<ExportFile, Snapshot> {
    var withNew := WriteOrDelete(files, NewExport, d.newFixtures);
    var withChanged := WriteOrDelete(withNew, ChangedExport, ChangedRows(d.changedFixtures));
    WriteOrDelete(withChanged, RemovedExport, d.removedFixtures)
  }

  /** Each export file exists exactly when its list is not empty, and holds that list. */
  lemma ExportsMatchDiff(files: map<ExportFile, Snapshot>, d: DiffResult)
    ensures var e := ExportsAfter(files, d);
      (NewExport in e <==> d.newFixtures != map[]) &&
      (NewExport in e ==> e[NewExport] == d.newFixtures) &&
      (ChangedExport in e <==> d.changedFixtures != map[]) &&
      (ChangedExport in e ==> e[ChangedExport] == ChangedRows(d.changedFixtures)) &&
      (RemovedExport in e <==> d.removedFixtures != map[]) &&
      (RemovedExport in e ==> e[RemovedExport] == d.removedFixtures)
  {
    var rows := ChangedRows(d.changedFixtures);
    assert rows == map[] <==> d.changedFixtures == map[] by {
      if d.changedFixtures != map[] {
        var k :| k in d.changedFixtures;
        assert k in rows;
      }
    }
  }

  /** The changed export holds, for each changed fixture, its row as the
      current file has it, not the baseline's. */
  lemma ChangedExportHoldsCurrentRows(files: map<ExportFile, Snapshot>, current: Snapshot, baseline: Snapshot)
    ensures var e := ExportsAfter(files, Diff(current, baseline));
      ChangedExport in e ==>
        e[ChangedExport].Keys <= current.Keys &&
        forall k :: k in e[ChangedExport] ==>
          k in baseline && e[ChangedExport][k] == current[k] &&
          Changes(baseline[k], current[k]) != []
  {
    var d := Diff(current, baseline);
    ExportsMatchDiff(files, d);
    var e := ExportsAfter(files, d);
    if ChangedExport in e {
      forall k | k in e[ChangedExport]
        ensures k in current && k in baseline && e[ChangedExport][k] == current[k] &&
          Changes(baseline[k], current[k]) != []
      {
        ChangedFixtures(current, baseline, k);
        ChangesEmpty(baseline[k], current[k]);
      }
    }
  }

  /** What `diff_fixtures` reports for the fixtures file and the baseline
      file: nothing when there are no current fixtures, else the diff. */
  function DiffOutcome(full: Option<seq<Row>>, baseline: Option<seq<Row>>): Option<DiffResult> {
    var current := ReadSnapshot(full);
    if |current| == 0 then None else Some(Diff(current, ReadSnapshot(baseline)))
  }

  /** The export files after a diff run with outcome `result`: untouched when
      the run stopped early. */
  function ExportsOutcome(files: map<ExportFile, Snapshot>, result: Option<DiffResult>): map<ExportFile, Snapshot> {
    match result
    case None => files
    case Some(d) => ExportsAfter(files, d)
  }

  /** The writes and deletes at the end of `diff_fixtures`. */
  method WriteExports(files: map<ExportFile, Snapshot>, d: DiffResult) returns (exports: map<ExportFile, Snapshot>)
    ensures exports == ExportsAfter(files, d)
  {
    exports := WriteOrDelete(files, NewExport, d.newFixtures);
    exports := WriteOrDelete(exports, ChangedExport, ChangedRows(d.changedFixtures));
    exports := WriteOrDelete(exports, RemovedExport, d.removedFixtures);
  }

  /** The body of `diff_fixtures` on the folder's files. */
  method DiffFiles(full: Option<seq<Row>>, baselineFile: Option<seq<Row>>, files: map<ExportFile, Snapshot>)
    returns (result: Option<DiffResult>, exports: map<ExportFile, Snapshot>)
    ensures result == DiffOutcome(full, baselineFile)
    ensures exports == ExportsOutcome(files, result)
  {
    var current := ReadCsvFixtures(full);
    var baseline := ReadCsvFixtures(baselineFile);
    if |current| == 0 {
      return None, files;
    }
    var d := ComputeDiff(current, baseline);
    exports := WriteExports(files, d);
    result := Some(d);
  }

  /** The working folder of the sync tool: the fixtures CSV the monitor writes,
      the baseline of what was uploaded, and the export files. A missing file
      is `None`; a file is modelled by the rows the CSV reader returns. */
  class SyncFolder {
    var fullCsv: Option<seq<Row>>
    var baselineCsv: Option<seq<Row>>
    var exports: map<ExportFile, Snapshot>

    constructor(full: Option<seq<Row>>, baseline: Option<seq<Row>>)
      ensures fullCsv == full && baselineCsv == baseline && exports == map[]
    {
      fullCsv := full;
      baselineCsv := baseline;
      exports := map[];
    }

    /** `diff_fixtures`: with no current fixtures nothing happens; otherwise
        the diff is computed and the export files rewritten from it. */
    method DiffFixtures() returns (result: Option<DiffResult>)
      modifies this
      ensures fullCsv == old(fullCsv) && baselineCsv == old(baselineCsv)
      ensures result == DiffOutcome(fullCsv, baselineCsv)
      ensures exports == ExportsOutcome(old(exports), result)
    {
      result, exports := DiffFiles(fullCsv, baselineCsv, exports);
    }

    /** `mark_uploaded`: with no fixtures file nothing happens; otherwise the
        file is copied over the baseline and the export files are deleted. */
    method MarkUploaded() returns (ok: bool)
      modifies this
      ensures ok <==> old(fullCsv).Some?
      ensures fullCsv == old(fullCsv)
      ensures ok ==> baselineCsv == fullCsv && exports == old(exports) - {NewExport, ChangedExport, RemovedExport}
      ensures !ok ==> baselineCsv == old(baselineCsv) && exports == old(exports)
    {
      if fullCsv.None? {
        return false;
      }
      baselineCsv := fullCsv;
      exports := exports - {NewExport, ChangedExport, RemovedExport};
      ok := true;
    }

    /** `show_status`. */
    method ShowStatus() returns (status: Status)
      ensures status == StatusOf(ReadSnapshot(fullCsv), ReadSnapshot(baselineCsv))
    {
      var current := ReadCsvFixtures(fullCsv);
      var baseline := ReadCsvFixtures(baselineCsv);
      var quick: Option<QuickDiff> := None;
      if baseline != map[] {
        quick := Some(QuickDiff(|current.Keys - baseline.Keys|, |baseline.Keys - current.Keys|));
      }
      status := Status(|current|, |baseline|, quick);
    }
  }
}
