# Symptom journal — a Dafny model

This project models the logic of a small symptom journal written as a React
single-page application. The journal keeps one entry per calendar day. Each
entry holds six symptom intensities (fever, headache, fatigue, nausea, cough,
sore throat, each rated 0 to 3), an optional mood (happy, neutral or sad),
free-text notes and a timestamp.

The model covers these parts of the application:

- **The page** (`IndexPage`): the entry list and how an update replaces or
  appends the entry for a date. Also the lookup of the selected day's entry,
  date navigation by button and by horizontal swipe, and the quick-log button.
  The page state is the class `IndexPage.Journal`.
- **The symptom logger** (`SymptomLogger`): a class holding the component's
  own `symptoms` and `notes` state, and the entry it builds on every change.
- **The mood tracker** (`MoodTracker`): the entry built when a mood is
  chosen.
- **The streak counter** (`StreakCounter`): the bounded backward scan over at
  most 30 days, written as a loop with invariants. It is proved against a
  recursive specification, and that specification is characterised by lemmas.
  Also covered: the streak message and icon thresholds.
- **The trend chart** (`TrendChart`): the loop that builds the seven points
  of the past week. Also the mood emoji, the daily wellness score and the
  colour band of the wellness bar.
- **Export and summary** (`ExportData`): symptom-day and symptom-free-day
  counts, and the per-symptom frequency table (nested loops). Also the "most
  common symptom" reduce, the CSV text with its quote escaping, and the JSON
  export wrapper.

The shared vocabulary is in `Entries`:

- the entry types;
- `find` and `findIndex` by date;
- the date formatting.

`Text` holds the decimal numerals and the join/split helpers.

Some functions model a source expression directly. They have no contract of
their own, and the lemmas in the table state their properties:

- `Entries.Find` is `entries.find(e => e.date === date)`.
- `StreakCounter.Streak` (through `StreakCounter.StreakFrom`) is the value `calculateStreak` returns.
- `ExportData.Reduce` and `ExportData.MostCommon` are the `reduce` that picks the most common symptom.
- `ExportData.EscapeQuotes` is `notes.replace(/"/g, '""')`.
- `ExportData.Row` is a row's `join(',')`.
- `ExportData.CsvText` is the `join('\n')` of the header and the rows.

Dates are integer day numbers. The `yyyy-MM-dd` format is modelled as the
decimal numeral of the day number. Only the fact that it is injective is
relied on, and that fact is proved through a parse-back round trip. Clock
readings (`Date.now()`, `new Date()`) are parameters: `now` for the
timestamp, `today` for the current day. The ISO rendering of a timestamp is a
parameter `iso` of the CSV builder.

## Model

| member | source | states |
|---|---|---|
| Text.IntRoundTrip | src/pages/Index.tsx:49 | Reading back the decimal rendering of any integer returns that integer, so the date-string stand-in loses no information |
| Text.SplitJoin | src/components/ExportData.tsx:33-47 | Splitting a `join` at its separator returns the parts, provided there is at least one part and no part contains the separator |
| Entries.FormatDayInjective | src/pages/Index.tsx:49 | Two days have the same date string exactly when they are the same day |
| Entries.WithIntensity | src/components/SymptomLogger.tsx:45 | `{ ...symptoms, [key]: value }` sets the chosen key to the value and leaves the other five keys unchanged |
| Entries.HasSymptomSomeKey | src/components/ExportData.tsx:97-99 | An entry has a symptom exactly when some key's intensity is above 0 |
| Entries.ValidSymptomsTotal | src/components/StreakCounter.tsx:30 | Intensities on the 0..3 scale add up to a total between 0 and 18 |
| Entries.WithIntensityKeepsValid | src/components/SymptomLogger.tsx:45 | Setting one intensity to a value on the scale keeps every intensity on the scale |
| Entries.FindIndex | src/pages/Index.tsx:55 | The result is -1 exactly when no entry has the date; otherwise it is the first position holding the date |
| Entries.FindMatchesFindIndex | src/pages/Index.tsx:50 | `find` returns the entry at the position `findIndex` reports, and returns nothing exactly when no entry has the date |
| Entries.FindDistinct | src/pages/Index.tsx:48-51 | With one entry per date, `find` returns `e` exactly when `e` is in the list and carries that date |
| Entries.FreshId | src/components/SymptomLogger.tsx:49 | A fresh id is the formatted date, a `-`, and then a numeral that parses back to the clock reading `now` |
| IndexPage.Upsert | src/pages/Index.tsx:53-64 | If the date is present, the first slot holding it is overwritten and the length is unchanged; otherwise the entry is appended and the length grows by one; every other position is unchanged |
| IndexPage.UpsertThenFind | src/pages/Index.tsx:48-64 | After the update, looking up the entry's date finds exactly the new entry |
| IndexPage.UpsertOtherDate | src/pages/Index.tsx:53-64 | The update does not change the lookup of any other date |
| IndexPage.UpsertKeepsDistinct | src/pages/Index.tsx:53-64 | If dates were pairwise distinct before the update, they still are after it |
| IndexPage.UpsertSameDateOverwrites | src/pages/Index.tsx:53-64 | Two updates for the same date equal the second update alone (last write wins) |
| IndexPage.QuickEntry | src/pages/Index.tsx:233-247 | The quick-log entry has all six intensities 0, total 0 and no symptom; its mood is happy, its notes are "Feeling good today! 🌟", its date is the selected day's string and its id is the fresh id |
| IndexPage.Journal.constructor | src/pages/Index.tsx:30-33 | The page starts with no entries, today selected and no touch in progress |
| IndexPage.Journal.TodayEntry | src/pages/Index.tsx:48-51 | Returns the first entry of the list dated with the selected day (the one at the position `findIndex` reports), and returns nothing exactly when there is none |
| IndexPage.Journal.UpdateEntry | src/pages/Index.tsx:53-64 | The new list is the replace-or-append of the old list; the date then looks up to the new entry; one-entry-per-date is preserved |
| IndexPage.Journal.NavigateDate | src/pages/Index.tsx:88-90 | `next` moves the selected day forward by exactly one day; `prev` moves it back by exactly one |
| IndexPage.Journal.HandleTouchStart | src/pages/Index.tsx:66-68 | Records the x position where the touch began |
| IndexPage.Journal.HandleTouchEnd | src/pages/Index.tsx:70-86 | A start position of 0 is ignored. Travel of more than 50 pixels to the left moves to the next day, and to the right to the previous day. Smaller travel leaves the day unchanged. The start position is always reset to 0 |
| IndexPage.Journal.QuickLog | src/pages/Index.tsx:231-248 | Stores the quick-log entry with replace-or-append; the selected day's entry is then that quick-log entry |
| SymptomLogger.LoggedEntry | src/components/SymptomLogger.tsx:48-55 | The built entry has the logger's symptoms and notes, the formatted date, the clock reading as timestamp, and the stored entry's mood (or none). It keeps the stored entry's id when that is non-empty, and otherwise gets the fresh id |
| SymptomLogger.LoggedEntryUpdatesOnlySymptoms | src/components/SymptomLogger.tsx:44-58 | When the logger's notes equal the stored entry's notes, re-logging changes only the symptoms and the timestamp, and an empty stored id is replaced by a fresh one |
| SymptomLogger.StaleLoggerOverwrites | src/components/SymptomLogger.tsx:32-55 | A logger whose notes or intensities are out of step with the stored entry writes its own notes and intensities over the stored ones. This happens because its state is set once, at mount, and is not refreshed after a date change or a quick log |
| SymptomLogger.LoggedEntryForNewDay | src/components/SymptomLogger.tsx:49-52 | Without a stored entry the built entry gets a fresh id and no mood |
| SymptomLogger.Logger.constructor | src/components/SymptomLogger.tsx:32-42 | The state starts from the stored entry's symptoms and notes; without an entry, all six intensities are 0 |
| SymptomLogger.Logger.UpdateSymptom | src/components/SymptomLogger.tsx:44-58 | Only the chosen intensity changes, to the chosen value. The reported entry is built from the new state. A level from the offered 0..3 keeps the intensities on the scale |
| SymptomLogger.Logger.UpdateNotes | src/components/SymptomLogger.tsx:60-73 | The notes are replaced; the reported entry carries the current symptoms unchanged and the new notes |
| MoodTracker.MoodsAreAllMoods | src/components/MoodTracker.tsx:14-18 | Every mood is among the three the buttons offer |
| MoodTracker.MoodEntry | src/components/MoodTracker.tsx:21-39 | The built entry has exactly the chosen mood, the formatted date and the clock reading. Without a stored entry it has a fresh id, empty notes and all intensities 0. With one, symptoms and notes are carried over, and so is its id unless that is empty, in which case the id is fresh |
| MoodTracker.MoodEntryUpdatesOnlyMood | src/components/MoodTracker.tsx:22-36 | Choosing a mood for a stored entry changes only its mood and timestamp; an empty stored id is replaced by a fresh one |
| MoodTracker.MoodEntryKeepsValid | src/components/MoodTracker.tsx:25-32 | A mood choice keeps intensities on the 0..3 scale |
| StreakCounter.StreakFrom | src/components/StreakCounter.tsx:24-47 | The count from scan step `i` onwards is at most `30 - i` |
| StreakCounter.CalculateStreak | src/components/StreakCounter.tsx:13-50 | The loop with its early exits computes exactly the recursive streak specification `Streak`, and the result is at most 30 |
| StreakCounter.StreakBoundedByEntries | src/components/StreakCounter.tsx:28-37 | Each counted day is a different entry, so the streak never exceeds the number of entries |
| StreakCounter.FindPermutation | src/components/StreakCounter.tsx:19-26 | With one entry per date, any reordering of the list finds the same entry for every date |
| StreakCounter.StreakIgnoresOrder | src/components/StreakCounter.tsx:19-26 | With one entry per date, the streak is the same for any reordering of the list, such as the sort before the scan |
| StreakCounter.StreakCountsEntryDays | src/components/StreakCounter.tsx:24-47 | The streak is 0 without an entry for today. Otherwise it is the number of scanned days that have an entry, up to the first day whose entry is not good; days without an entry neither count nor stop the count |
| StreakCounter.StreakCoversGoodRun | src/components/StreakCounter.tsx:28-34 | Good entries on today and on each of the `k` days before give a streak of at least `k + 1` |
| StreakCounter.StreakStopsAtBadDay | src/components/StreakCounter.tsx:35-37 | An entry totalling more than 2, `b` days back, caps the streak at `b` |
| StreakCounter.FourDayStreak | src/components/StreakCounter.tsx:24-47 | Good entries on today and the 3 days before, then a bad day, give a streak of exactly 4 |
| StreakCounter.StreakMessage | src/components/StreakCounter.tsx:54-61 | Each message is returned exactly on its band: 0, 1, 2–6, 7–13, 14–29 and 30 or more |
| StreakCounter.StreakIconFor | src/components/StreakCounter.tsx:63-66 | The flame is shown exactly when the streak is at least 7 |
| TrendChart.PointFor | src/components/TrendChart.tsx:26-38 | A point carries its day and date string. Its intensities and mood come from the day's entry; without an entry, the intensities are all 0 and there is no mood |
| TrendChart.Last7Days | src/components/TrendChart.tsx:23-41 | The loop always returns exactly 7 points, for the days `today - 6` up to `today` in ascending order, each built from that day's entry |
| TrendChart.MoodEmoji | src/components/TrendChart.tsx:45-52 | The question mark is shown exactly when there is no mood |
| TrendChart.MoodEmojiInjective | src/components/TrendChart.tsx:45-52 | Different moods get different emoji |
| TrendChart.OverallWellness | src/components/TrendChart.tsx:54-59 | The score is never negative. It is 12 minus the intensity total while the total is at most 12, and 0 from 12 on |
| TrendChart.WellnessWithinScale | src/components/TrendChart.tsx:54-59 | For intensities on the 0..3 scale the score lies in [0, 12] |
| TrendChart.WellnessExtremes | src/components/TrendChart.tsx:58 | A symptom-free day scores 12; a day with all six symptoms severe scores 0 |
| TrendChart.WellnessBand | src/components/TrendChart.tsx:131-144 | Green exactly for scores of 10 or more; yellow for 8–9; orange for 5–7; red below 5. These are the 80/60/40 percent thresholds on the integer score |
| ExportData.SymptomDays | src/components/ExportData.tsx:96-100 | The number of symptom days is at most the number of entries |
| ExportData.SymptomDaysPositive | src/components/ExportData.tsx:96-100 | There is a symptom day exactly when some entry has an intensity above 0 |
| ExportData.SymptomFreeDays | src/components/ExportData.tsx:144 | The symptom-free figure is never negative and never more than the number of entries |
| ExportData.SymptomFreeDaysAreZeroDays | src/components/ExportData.tsx:144 | With intensities on the scale, the symptom-free figure equals the number of all-zero entries |
| ExportData.CountWith | src/components/ExportData.tsx:112-118 | The count for a key is at most the number of entries |
| ExportData.CountWithPositive | src/components/ExportData.tsx:112-118 | The count for a key is positive exactly when some entry has that symptom |
| ExportData.Frequencies | src/components/ExportData.tsx:102-121 | The table holds every key, with a count between 0 and the number of entries |
| ExportData.CountEntry | src/components/ExportData.tsx:113-117 | One entry adds one to exactly the counters of the symptoms it has |
| ExportData.SymptomFrequency | src/components/ExportData.tsx:102-121 | The nested loops compute the table of counts. All six keys are present; each count is at most the number of entries; with no entries every count is 0 |
| ExportData.ReduceFindsLastMaximum | src/components/ExportData.tsx:124-126 | The reduce ends on a real key carrying its frequency. No key has a larger count, and every later key has a strictly smaller one |
| ExportData.MostCommonIsLastMaximum | src/components/ExportData.tsx:124-126 | The most common symptom is never the `'none'` seed. Its count is the maximum frequency, and among tied keys the last in fever..sore-throat order wins |
| ExportData.MostCommonOfNoEntries | src/components/ExportData.tsx:124-126 | With no entries the reduce reports sore throat with count 0 |
| ExportData.MostCommonShownIffSymptomDays | src/components/ExportData.tsx:124-150 | The most common symptom is shown (count above 0) exactly when some entry has a symptom |
| ExportData.HeaderLineSplits | src/components/ExportData.tsx:20-34 | The header line splits back into the ten column names |
| ExportData.UnescapeEscape | src/components/ExportData.tsx:45 | Halving the doubled quotes recovers the notes as written |
| ExportData.QuoteNotes | src/components/ExportData.tsx:45 | The notes field starts and ends with a quote |
| ExportData.NotesRoundTrip | src/components/ExportData.tsx:45 | Stripping the outer quotes and halving the doubled ones recovers the original notes |
| ExportData.RowFields | src/components/ExportData.tsx:35-46 | A row has one field per header |
| ExportData.RowFieldsDecode | src/components/ExportData.tsx:35-46 | Every field reads back to its source: date, timestamp text, each intensity, the mood (an empty field exactly when there is no mood) and the notes |
| ExportData.IntensityColumnDecodes | src/components/ExportData.tsx:37-42 | The column of each key parses back to that key's intensity |
| ExportData.Rows | src/components/ExportData.tsx:35-47 | One line per entry, in list order |
| ExportData.CsvLines | src/components/ExportData.tsx:33-47 | One line more than there are entries |
| ExportData.CsvStartsWithHeader | src/components/ExportData.tsx:34 | The first line is the header line |
| ExportData.CsvLineOfEntry | src/components/ExportData.tsx:35-47 | Line `i + 1` is the row of entry `i` |
| ExportData.RowHasNoNewline | src/components/ExportData.tsx:35-46 | A row contains no line break when the date, the notes and the rendered timestamp contain none |
| ExportData.CsvTextSplitsIntoLines | src/components/ExportData.tsx:33-47 | If no date, note or rendered timestamp contains a line break, splitting the CSV text at `\n` gives exactly the header and one line per entry: no blank or trailing line |
| ExportData.ExportCsv | src/components/ExportData.tsx:14-48 | Nothing is produced exactly when the list is empty; otherwise the result is the CSV text |
| ExportData.ExportJson | src/components/ExportData.tsx:63-73 | Nothing is produced exactly when the list is empty. Otherwise the wrapper's entries are the list unchanged, `totalEntries` is its length, and the export date is the given one |

## Left out

- Loading and saving the list in `localStorage` (src/pages/Index.tsx:36-46) is browser I/O and is not modelled; the page starts from an empty list.
- The JSON serialisation itself (`JSON.stringify`) is left out: only the wrapper record is modelled.
- The downloads (Blob, object URL, link click) and the toast notifications are I/O.
- `clearAllData` is left out. It asks for confirmation, removes the storage key and reloads the page, all browser side effects.
- All JSX rendering, the `activeTab` switch, the chart library configuration and the colours are presentation.
- The disabled "next" button on today is presentation too, so `IndexPage.Journal.NavigateDate` is unbounded, as the handler is.
- date-fns is not modelled. Days are integers; `addDays` and `subDays` are `+ 1` and `- 1`; the `yyyy-MM-dd` format is the decimal numeral of the day number.
- The chart's `MMM d` label is replaced by the day number itself (`TrendChart.DayPoint.day`).
- `Date.prototype.toISOString` is the parameter `iso` of the CSV builder; the JSON export date is a string parameter.
- `Date.now()` is the parameter `now`. The builders read the clock twice, once for the id and once for the timestamp; the model assumes both reads return the same value.
- `TrendChart.Last7Days` takes one `today` for all seven points. The source calls `new Date()` once per point, so a run that crosses midnight could mix two days; the model does not capture that.
- `StreakCounter.CalculateStreak` scans the list as given instead of a sorted copy. `StreakCounter.StreakIgnoresOrder` proves this gives the same streak whenever dates are distinct. With duplicate dates, a stable sort keeps their relative order, so the result would also agree, but that case is not proved.
- The percentage `wellness / 12 * 100`, its `Math.round` and the bar width are floating point. The colour band is stated over the integer score instead.
- Stored entries are assumed well-formed: exactly six integer intensities. Missing, `NaN` or extra keys, and the `|| 0` fallbacks that only matter for them, are not modelled.
- `SymptomFrequency` iterates the keys in fever..sore-throat order rather than in the stored object's own key order. The counts do not depend on the order.
- Touch positions are integers. A `NaN` start position, which `!touchStart` would also reject, is not modelled.
- The "Most Common" label's capitalisation and the "time"/"times" plural are display text and are left out.
