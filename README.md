# Ballincollig GAA fixtures: a verified model of the sync core

This project models the core of a small tool chain. The tool chain keeps a GAA club's ClubZap fixture list in step with the fixtures published by Cork GAA. The model covers six parts of that tool chain:

- **Classifiers.** The scraper and the monitor each turn a competition name into a ClubZap team and an event type. They use two different rule chains.
- **Row normalisers.** The scraper and the monitor each turn a scraped record into the ten-column fixtures CSV row: date, time, venue, ground, referee, team, competition name, club name, opponent and event type.
- **Scraper pipeline.** The competition-page filter keeps fixtures the club plays that are not rugby and not in the past. The scraper then builds the club's fixtures CSV text.
- **Monitor.** The monitor assembles the fixtures text and its count. It compares two texts line by line (`analyze_changes`) and writes the notification summary of what changed against the uploaded baseline.
- **Sync tool.** The sync tool (`clubzap_sync.py`) indexes fixtures by a stripped key of date, team, opponent and competition. It diffs the current fixtures against the baseline into new, changed, postponed and removed fixtures and writes the three export files. `mark_uploaded` promotes the current file to baseline, and `show_status` reports counts.
- **Club-details formatter.** The formatter cleans whitespace, drops an e-mail that only says "Click here", stamps the scrape time, and refuses to write an empty CSV.

Shared modules hold the Python primitives the code relies on:

- `Text`: `str.strip`, `str.split()`, `split('\n')`, `join`, `lower`, and the `in` substring test.
- `Dates`: `strptime("%d %b %Y")` and `strftime("%d/%m/%Y")`.
- `Fixtures`: the CSV header and the CSV row.

Files are modelled by the rows the CSV reader returns, and a missing file is `None`. A dictionary read from a file is a `map`. Where the order of iteration matters, as in the monitor's summary, the dictionary is an ordered sequence of entries.

Stateful parts are imperative:

- The sync tool's working folder is the class `Sync.SyncFolder`.
- Each source loop is a method proved against a specification function. This covers the record loop, the filter loop, the diff loops, the column comparison, the summary builder and the formatter's field loop.
- Lemmas then prove what the source promises about those functions.

## Model

| member | source | states |
|---|---|---|
| Sync.KeyIsStripped | clubzap_sync.py:30-39 | a fixture key lists the stripped Date, Team, Opponent and Competition Name values |
| Sync.SameKey | clubzap_sync.py:37-39 | two rows share a key exactly when their key columns agree after stripping |
| Sync.KeyIgnoresPadding | clubzap_sync.py:37-39 | padding a key column with whitespace does not change the key |
| Sync.IndexBy | clubzap_sync.py:42-52 | every entry of the index is stored under its own row's key |
| Sync.IndexEntries | clubzap_sync.py:42-52 | a key is indexed exactly when some row has it, and it holds the last such row (later rows overwrite earlier ones) |
| Sync.IndexSize | clubzap_sync.py:42-52 | the index never has more entries than the file has rows |
| Sync.IndexDistinctKeys | clubzap_sync.py:42-52 | with distinct keys, nothing is lost: one entry per row |
| Sync.ReadFixtures | clubzap_sync.py:42-52 | the reading loop builds exactly the keyed index of the rows |
| Sync.ReadSnapshot | clubzap_sync.py:44-45 | a missing file reads as no fixtures |
| Sync.ReadCsvFixtures | clubzap_sync.py:42-52 | reading a file that may be missing gives its index, or nothing |
| Sync.ChangesInEmpty | clubzap_sync.py:96-107 | no change is reported exactly when every compared column agrees after stripping |
| Sync.ChangesInListed | clubzap_sync.py:96-107 | every column that differs after stripping is reported with its stripped old and new values |
| Sync.ChangesInOnlyDiffering | clubzap_sync.py:96-107 | every reported change belongs to a column that differs |
| Sync.ChangesInLength | clubzap_sync.py:96-107 | at most one change per compared column |
| Sync.ChangesEmpty | clubzap_sync.py:33-34 | a fixture is unchanged exactly when Time, Venue, Ground and Referee all agree after stripping |
| Sync.NoChangesWithItself | clubzap_sync.py:96-107 | a row compared with itself shows no change |
| Sync.CompareColumns | clubzap_sync.py:96-107 | the column loop produces exactly the specified change list |
| Sync.PartGrows | clubzap_sync.py:82-107 | classifying one more key adds it to exactly its verdict's list |
| Sync.PartKept | clubzap_sync.py:82-107 | classifying a key leaves the other verdicts' lists unchanged |
| Sync.ChangedPartKept | clubzap_sync.py:82-107 | a key that is not changed leaves the changed list unchanged |
| Sync.TallyNew | clubzap_sync.py:83-88 | a new key joins the new list only, and is not counted as unchanged |
| Sync.TallyPostponed | clubzap_sync.py:84-93 | a postponed key joins the postponed list only |
| Sync.TallyChanged | clubzap_sync.py:95-105 | a changed key joins the changed list with its changes |
| Sync.TallyUnchanged | clubzap_sync.py:106-107 | an unchanged key only increments the unchanged count |
| Sync.TallyNone | clubzap_sync.py:74-79 | before the loop, all lists are empty and the count is zero |
| Sync.ClassifyAll | clubzap_sync.py:82-107 | the classification loop over the current fixtures yields the full tally |
| Sync.RemovedFixtures | clubzap_sync.py:110-112 | the removal loop yields exactly the baseline fixtures whose keys are no longer current |
| Sync.ComputeDiff | clubzap_sync.py:74-112 | the diff loops compute the specified diff |
| Sync.NewFixtures | clubzap_sync.py:82-88 | a fixture is new exactly when it is current, not postponed and not in the baseline; it holds the current row |
| Sync.PostponedFirst | clubzap_sync.py:84-93 | a current fixture with Time "Postponed" is listed as postponed whether or not the baseline has it |
| Sync.ChangedFixtures | clubzap_sync.py:89-105 | a fixture is changed exactly when it is current, not postponed, in the baseline and differs in a change column; its changes are those columns |
| Sync.RemovedFixturesAreGone | clubzap_sync.py:110-112 | the removed fixtures are exactly the baseline entries whose keys are missing from the current file |
| Sync.DiffCounts | clubzap_sync.py:82-107 | new, changed and postponed fixtures plus the unchanged count add up to the number of current fixtures |
| Sync.PartsCover | clubzap_sync.py:82-107 | every current fixture falls into one of the four verdicts |
| Sync.PartsDisjoint | clubzap_sync.py:82-107 | no fixture falls into two verdicts |
| Sync.FirstRun | clubzap_sync.py:139-141 | against an empty baseline nothing is changed, removed or unchanged, and every current fixture is new or postponed |
| Sync.InSyncAfterUpload | clubzap_sync.py:189-205 | once the current file is the baseline, a diff finds nothing new, changed or removed; every fixture is unchanged or postponed |
| Sync.FirstRunOverstates | clubzap_sync.py:139-141 | as written, the first-run message counts every fixture as new, and so overstates when one is postponed |
| Sync.FirstRunNewCountMeaning | clubzap_sync.py:115-128 | the corrected first-run count is the number of new fixtures, and is non-zero exactly when the new-fixtures export is written |
| Sync.StatusAgainstDiff | clubzap_sync.py:208-222 | the status's removed count equals the diff's; its new count adds the postponed fixtures missing from the baseline to the diff's new ones |
| Sync.UnlistedAreNewOrPostponed | clubzap_sync.py:215-220 | the keys missing from the baseline are exactly the diff's new fixtures plus the postponed fixtures missing from the baseline |
| Sync.ChangedRows | clubzap_sync.py:120-123 | the changed export holds one row per changed fixture, and that row is the fixture's row from the diff, not its change entries |
| Sync.ExportsMatchDiff | clubzap_sync.py:115-128 | each export file exists exactly when its list is non-empty; the new and removed exports then hold exactly their lists, and the changed export holds exactly the changed fixtures' rows |
| Sync.ChangedExportHoldsCurrentRows | clubzap_sync.py:120-123 | every row of the changed export is the fixture's current row, under a key the baseline also has, with at least one change |
| Sync.WriteExports | clubzap_sync.py:115-128 | writing the exports gives the specified folder contents |
| Sync.DiffFiles | clubzap_sync.py:64-128 | an empty current file aborts and leaves the exports untouched; otherwise the diff is computed and the exports rewritten from it |
| Sync.SyncFolder.constructor | clubzap_sync.py:22-26 | a folder holding the given fixtures and baseline files and no exports |
| Sync.SyncFolder.DiffFixtures | clubzap_sync.py:64-186 | the input files are unchanged, the result is the diff of their contents, and the exports are rewritten from it |
| Sync.SyncFolder.MarkUploaded | clubzap_sync.py:189-205 | succeeds exactly when the fixtures file exists; it then becomes the baseline and all three exports are deleted, otherwise nothing changes |
| Sync.SyncFolder.ShowStatus | clubzap_sync.py:208-222 | reports both sizes, and the new and removed key counts only when a baseline exists |
| Monitor.TeamNamesListed | enhanced_monitor.py:135-212 | the monitor's mapper names one of the club's ClubZap teams, or "Unknown" |
| Monitor.UnderageFirst | enhanced_monitor.py:151-161 | "fe14" and "fe16" decide the team before any other rule; "fe18" splits only by hurling or football |
| Monitor.SponsorsBeforeGrades | enhanced_monitor.py:163-167 | the "mccarthy" and "red fm" sponsor rules take precedence over the grade rules |
| Monitor.MapTeamNameIgnoresCase | enhanced_monitor.py:145 | the team depends only on the lower-cased competition name |
| Monitor.EventTypeIgnoresCase | enhanced_monitor.py:216 | the event type depends only on the lower-cased name |
| Monitor.EventTypeNames | enhanced_monitor.py:214-225 | the event type is one of Championship, Cup, League and Other |
| Monitor.EventTypeMeaning | enhanced_monitor.py:214-225 | each event type holds exactly when its words occur and no earlier rule's words do |
| Monitor.DateColumnMeaning | enhanced_monitor.py:68-73 | a readable date becomes DD/MM/YYYY with the same day, month and year; an unreadable one is kept verbatim |
| Monitor.DateColumnOfText | enhanced_monitor.py:68-73 | a date written as "DD Mon YYYY" is reformatted to its DD/MM/YYYY form |
| Monitor.NormaliseOrientation | enhanced_monitor.py:53-61 | a record is kept exactly when the club occurs in one of its teams; the ground is Home or Away accordingly and the opponent is the other side |
| Monitor.NormalisePostponed | enhanced_monitor.py:75-81 | the event type is Postponed exactly for a midnight time; other four-character times gain a leading zero |
| Monitor.RefereeNeverBlank | enhanced_monitor.py:83-85 | the referee column is never empty: the stripped name, or "TBC (Pending)" |
| Monitor.FixturesData | enhanced_monitor.py:40-102 | the record loop returns nothing without records, otherwise the joined header and kept lines with their count |
| Monitor.CountIsKept | enhanced_monitor.py:90-92 | the count is the number of kept records, never more than the records scraped |
| Monitor.CsvLinesKeepOut | enhanced_monitor.py:87-88 | no written line contains a line break when no scraped value does |
| Monitor.TextLines | enhanced_monitor.py:90-92 | splitting the stored text gives back the header and the lines, and the count is the number of lines after the header |
| Monitor.StoredLines | enhanced_monitor.py:90-92 | the stored text's line set is the header plus the written lines |
| Monitor.AnalyzeChanges | enhanced_monitor.py:323-336 | the counts are the sizes of the added and removed sets |
| Monitor.AnalysisMeaning | enhanced_monitor.py:323-336 | a line is added exactly when only the new text has it, and removed exactly when only the old text has it; no line is both |
| Monitor.AnalysisSwaps | enhanced_monitor.py:323-336 | swapping the texts swaps added and removed |
| Monitor.NoChangeIffSameLines | enhanced_monitor.py:323-336 | nothing is added or removed exactly when both texts have the same set of lines |
| Monitor.NotesMatchChanges | enhanced_monitor.py:392-397 | the summary notes one column for each change the sync diff reports |
| Monitor.ColumnNotes | enhanced_monitor.py:394-397 | the column loop yields the specified notes |
| Monitor.SortMatchesClassify | enhanced_monitor.py:386-398 | the summary sorts each fixture as the sync diff classifies it, and drops the unchanged ones |
| Monitor.TriageCounts | enhanced_monitor.py:386-398 | the summary's new, changed and postponed lists have one entry for each current entry with that verdict, and the unchanged entries make up the rest |
| Monitor.MapOfKeys | enhanced_monitor.py:378-379 | a dictionary read as entries holds exactly the keys of its entries |
| Monitor.DictionaryIsIndex | enhanced_monitor.py:378-379 | the entries of a fixtures dictionary store every row under its own fixture key, as the sync tool's reader does |
| Monitor.PartInsert | enhanced_monitor.py:386-398 | a fixture added under a fresh key joins the diff's part for its own verdict and no other part |
| Monitor.CountVerdictIsPart | enhanced_monitor.py:386-398 | when the keys are distinct, the number of entries with a verdict is the size of the sync diff's part for that verdict |
| Monitor.RemovedItemsCount | enhanced_monitor.py:400-402 | when the baseline's keys are distinct, the removed list is as long as the sync diff's removed fixtures |
| Monitor.TriageMatchesDiff | enhanced_monitor.py:378-402 | on dictionaries, the summary lists as many new, changed, postponed and removed fixtures as the sync diff of the same two files finds |
| Monitor.CollectItems | enhanced_monitor.py:386-398 | the sorting loop yields the specified lists, in iteration order |
| Monitor.RemovedItemsMeaning | enhanced_monitor.py:400-402 | a row is listed as removed exactly when a baseline entry with that row has a key the current fixtures lack |
| Monitor.CollectRemoved | enhanced_monitor.py:400-402 | the removal loop yields the specified list |
| Monitor.ItemLinesShape | enhanced_monitor.py:407-408 | one summary line per fixture, in order |
| Monitor.NewSectionShape | enhanced_monitor.py:405-410 | the NEW section is absent exactly without new fixtures; otherwise it has a heading with the count, the first five fixtures, and a "more" line only beyond five |
| Monitor.ChangedSectionShape | enhanced_monitor.py:412-419 | the CHANGED section is absent exactly without changed fixtures; otherwise it has a heading with the count, then the lines and notes of the first five fixtures only, and a "more" line only beyond five; its exact length is given |
| Monitor.ChangedSectionAt | enhanced_monitor.py:413-417 | in the CHANGED section, each shown fixture's line follows the heading and the lines of the fixtures before it, and is followed directly by its indented notes |
| Monitor.ChangedLinesLength | enhanced_monitor.py:413-417 | the changed lines take one line per fixture plus one per note |
| Monitor.ChangedLinesAt | enhanced_monitor.py:413-417 | each changed fixture's line comes right after the lines of the fixtures before it, followed directly by its indented notes |
| Monitor.ListSectionShape | enhanced_monitor.py:421-429 | the POSTPONED and REMOVED sections list every fixture under a heading, and are absent when empty |
| Monitor.ChangedLinesShowFixtures | enhanced_monitor.py:414-415 | every shown changed fixture has its line |
| Monitor.ChangedLinesShowNotes | enhanced_monitor.py:416-417 | every note of a shown changed fixture appears indented |
| Monitor.QuietExactly | enhanced_monitor.py:431 | the summary says "No ClubZap action needed" exactly when there is nothing new, changed, postponed or removed |
| Monitor.AppendChanged | enhanced_monitor.py:413-417 | the nested loop appends each changed fixture's line and notes |
| Monitor.BuildSummary | enhanced_monitor.py:404-431 | the section-by-section builder produces the specified summary text |
| Monitor.InlineSummary | enhanced_monitor.py:378-431 | on the two fixtures dictionaries, the whole inline diff produces the summary of the triaged current fixtures and the removed baseline rows |
| Scraper.TeamNamesListed | scraper.py:394-459 | the scraper's mapper names one of its nineteen teams, or "Unknown" |
| Scraper.UnderageFirst | scraper.py:400-409 | the under-age codes fe12 to fe16 decide the team before any other rule |
| Scraper.MinorNeedsCode | scraper.py:410-413 | "fe18" gives a minor team only when the name also says hurling or football |
| Scraper.MapTeamNameIgnoresCase | scraper.py:398 | the team depends only on the lower-cased name |
| Scraper.EventTypeMeaning | scraper.py:461-472 | Championship exactly for "championship" or "final", Cup for "cup" otherwise, and League for everything else; never Other |
| Scraper.ProcessFixtureMeaning | scraper.py:326-392 | a record yields a fixture exactly when its date reads; the fixture carries the verbatim venue, referee and competition, the club's name, and the mapped team and event type |
| Scraper.ProcessFixtureOfText | scraper.py:338-339 | a "DD Mon YYYY" date is reformatted to DD/MM/YYYY |
| Scraper.PaddedTimeMeaning | scraper.py:342-344 | a time gains a leading zero exactly when it has four characters and a colon |
| Scraper.OrientationMeaning | scraper.py:353-366 | the opponent is the other side only when one side is exactly the club; the ground is Home only at the club's own venue, Away when the club is the away side, else Neutral |
| Scraper.YieldMeaning | scraper.py:133-167 | a record contributes exactly when the filter keeps it, and then contributes its processed fixture |
| Scraper.CompetitionFixtures | scraper.py:120-170 | the filter loop returns exactly the processed kept records, in page order |
| Scraper.SelectedComplete | scraper.py:133-167 | every record the filter keeps appears among the fixtures |
| Scraper.SelectedSound | scraper.py:133-167 | every fixture comes from a kept record: the club plays, it is not rugby, and its date is today or later |
| Scraper.NoBoysTeamSelected | scraper.py:138-145 | no kept fixture maps to the "Boys GAA" team, since "boys clubs" is a rugby indicator |
| Scraper.BoysTeamIsRugby | scraper.py:138-145 | a record whose competition maps to "Boys GAA" is always filtered as rugby |
| Scraper.AssembleFixtures | scraper.py:702-715 | a club without fixtures gets no fixtures entry; otherwise the CSV text and the "Ballincollig Fixtures" competition name |
| Scraper.CsvLinesOfShape | scraper.py:708-711 | one CSV line per fixture, in order |
| Scraper.CsvTextLines | scraper.py:702-714 | when no field holds a line break, the CSV text splits back into the header and one line per fixture |
| Scraper.RedFmDivergence | scraper.py:450-451 | "Red FM HL" is Junior A Hurling for the scraper but Premier Inter Hurling for the monitor |
| Scraper.FinalDivergence | scraper.py:467-468 | a "Final" is a Championship for the scraper but Other for the monitor |
| Scraper.OtherDivergence | scraper.py:469-472 | a "Friendly" is League for the scraper but Other for the monitor |
| Scraper.ChampionshipAgrees | scraper.py:467-468 | whatever the monitor calls a Championship, the scraper does too |
| Scraper.MidnightDivergence | scraper.py:342-344 | a midnight time is kept as "00:00" by the scraper but shown as Postponed by the monitor |
| Scraper.OrientationDivergence | scraper.py:353-366 | a side that only contains the club's name gives a Neutral ground and an Unknown opponent in the scraper, but Home or Away in the monitor |
| Scraper.RefereeAndDateDivergence | scraper.py:338-369 | a blank referee stays blank in the scraper but becomes "TBC (Pending)" in the monitor; an unreadable date drops the record in the scraper but not in the monitor |
| Formatter.CleanWhitespace | data_formatter.py:27-30 | a cleaned value holds no whitespace other than single inner spaces: no line breaks, no tabs, no padding |
| Formatter.CleanIdempotent | data_formatter.py:27-30 | cleaning a value twice is cleaning it once |
| Formatter.CleanKeepsClean | data_formatter.py:27-30 | a text of words separated by single spaces is its own cleanup |
| Formatter.CleanValueMeaning | data_formatter.py:24-35 | text is cleaned and other values pass through; only an e-mail that mentions "Click here" after cleaning is dropped |
| Formatter.CleanFieldsMeaning | data_formatter.py:23-35 | a field is stored exactly when it is extracted and not a dropped e-mail, and with its cleaned value |
| Formatter.FormatClubData | data_formatter.py:11-40 | the field loop produces the specified formatted club |
| Formatter.FormattedMeaning | data_formatter.py:21-40 | the formatted club holds the scrape time and only extracted fields; every extracted field is present with its cleaned value unless it is a dropped e-mail |
| Formatter.FormattedIsOneLine | data_formatter.py:27-30 | every stored text field is a single clean line; a club's multi-line fixtures text is flattened |
| Formatter.SaveToCsv | data_formatter.py:43-79 | an empty club list writes nothing; otherwise the columns are the extracted fields plus scraped_at, with one formatted row per club |
| Formatter.RowsFitColumns | data_formatter.py:68 | every key of every formatted club is one of the writer's columns |
| Dates.ParseDayMonYearText | scraper.py:338 | reading a date written as "DD Mon YYYY" gives that date back |
| Dates.MonthNumberIgnoresCase | scraper.py:338 | the month abbreviation is read without regard to case |
| Dates.FormatDate | scraper.py:339 | the formatted date is DD/MM/YYYY with the date's day, month and year as zero-padded digits |
| Fixtures.CsvLineFields | enhanced_monitor.py:87 | when no field holds a comma, the CSV line splits back into the ten fields in column order |
| Fixtures.HeaderLineColumns | enhanced_monitor.py:42 | the header splits into the ten column names |

## Left out

- File I/O, the `csv` module's quoting, directory creation and file paths. Files are modelled by the rows they hold, and a missing file by `None`.
- Printing and logging. This covers the report that `diff_fixtures` prints, the debug prints of the scraper, and `log_message`.
- The MD5 hash of the fixtures text, the JSON state file, and the first-run and hash-comparison flow of `check_for_changes`. The model starts where two snapshots are compared.
- Notifications: ntfy, macOS notifications and the message prefix around the summary.
- The Selenium and BeautifulSoup scraping itself. The monitor's records and the competition page's data attributes are inputs.
- The monitor's fallback to the plain scraper when Selenium fails (enhanced_monitor.py:104-121).
- The scraper's club-page extraction and text-pattern and table parsers, whose fixtures the CSV assembly takes as input.
- The wall clock. Today's date and the scrape time are parameters.
- Formatter.SaveToCsv: stamps every club with one `now`, where the source reads the clock once per club.
- Exceptions. An `r['Date']` on a row without that column is read as empty text by `Get`, where the source would raise `KeyError`. A row shorter than the header gets `None` for its missing fields from `csv.DictReader`. Then `row.get(c, '').strip()` (clubzap_sync.py:39) raises `AttributeError`, where `Get` reads those fields as empty text. The scraper's `except` around a record is the `None` path of processing.
- Case folding. `lower()` is modelled for ASCII and Latin-1 letters, which covers every literal the classifiers test. Full Unicode case mapping is not modelled.
- Non-text club values (such as `None`) are an opaque `Other` value that the formatter passes through.
- Dictionary order. The sync tool's snapshots are maps, so the row order of its export files is not modelled. The monitor's summary keeps order by reading dictionaries as entry sequences. `Monitor.IsFixtureDictionary` requires that their keys are distinct and that each is its row's fixture key.
- Python's `strptime` also accepts other whitespace and locale month names. The model accepts the English abbreviations and the whitespace `\s` matches, which is what the day-month-year format reads on this data. Python's `\d` in the day and year patterns, and `int()`, also accept non-ASCII Unicode decimal digits; `Dates.ParseYear` and `Dates.DayToken` accept ASCII digits only.

## Findings

| source | as written | input that shows it | evidently intended | confidence | as-written member | corrected member |
|---|---|---|---|---|---|---|
| clubzap_sync.py:139-141 | on a first run, the message says all `len(current)` fixtures are new | an empty baseline and one current fixture whose Time is "Postponed": it is exported as postponed, not new, yet counted as new | report the number of fixtures in the new-fixtures export | not executed (medium) | Sync.FirstRunOverstates | Sync.FirstRunNewCountMeaning |
