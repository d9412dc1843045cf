# Garmin fitness tracker: points, sync and calendar helpers in Dafny

This project models the core of a small personal fitness tracker. The tracker
pulls each day's step count and recorded activities from Garmin Connect and
turns them into "activity points". It keeps one row per day in a local store
and shows the points on a home page (this week's day circles) and a calendar
page (one mini circle per day, month by month).

The model covers these parts:

- **Scoring** (`Backend`). The step tiers (8 / 5 / 3 / 0 points at
  12500 / 10000 / 7000 steps) and the per-activity rule of `calculate_points`.
  - An activity earns points per whole 30-minute block, gated by its average
    heart rate.
  - A "strength" activity earns 8 per block at any non-zero heart rate.
  - The method `CalculatePoints` is the source's accumulating loop. It is
    proved equal to the recursive specification `Score`, and the listed
    properties are proved about `Score`.
- **Per-day data** (`Backend`). The two selections inside `get_daily_data`:
  - the activities whose `startTimeLocal` starts with the ISO date, in
    listing order;
  - the first step-history entry for the date, with 0 when there is none,
    when it is null, or when the date lies in the future.

  The provider's replies (login state, activity listing, step history)
  are inputs.
- **Sync** (`Backend.SyncData`). The incremental backfill over the store.
  - It starts at the latest stored date + 1, or at 2025-02-01 for an empty
    store, and stops early when the store is current through yesterday.
  - Otherwise it fetches, scores and upserts every date through yesterday
    in increasing order, reporting `(index, total)` progress.
  - `today` is a parameter.
  - What `get_daily_data` answers for each date is the function `fetch`.
- **Store** (`Database.DailyStore`). A class whose one field is a
  `map<Date, Row>`. It supports upsert, point lookup, inclusive range lookup
  and the latest date.
- **Older scoring script** (`GarminPoints`).
  - Its own step, activity and strength rules. Its strength rule needs a
    heart rate above 105 bpm, where the sync engine's rule accepts any
    non-zero heart rate.
  - The day total built from the daily summary.
  - The loop over a date range.

  Lemmas relate the two rule sets:
  - the step tiers agree;
  - the cardio rules agree;
  - the strength rules disagree in a stated way.
- **Front end** (`Frontend`):
  - the deterministic mock loader and the property its own self-test
    checks;
  - the Monday–Sunday week of a date;
  - `months_since`;
  - the class selection and content of the day and mini circles;
  - the calendar's week total.

Dates are integer day numbers, with day 0 = 1970-01-01 (`Dates`). Weekday,
calendar month, day of month and the ISO `YYYY-MM-DD` string are computed
from the day number by the proleptic Gregorian rules. The lemma
`Dates.TrackingEpochIsFebruaryFirst2025` pins the sync's start date, day
20120, to 2025-02-01.

Heart rates are `real`. Durations are whole seconds (`nat`). Python's `//`
by 1800 is Dafny's `/`, because the divisor is positive.

Where the written design of the tracker and its code disagree, the model
follows the code:

- **Strength rule.** The design pays strength blocks only above 105 bpm. The
  sync engine's `calculate_points` (modules/backend.py:140-144) pays them at
  any non-zero heart rate; only the older script (garmin_points.py:43-47)
  uses 105 bpm. `GarminPoints.StrengthRulesDisagree` states the difference.
- **Progress timing.** The design reports progress after each date. The code
  reports "Syncing date (i/n)" before fetching the date
  (modules/backend.py:190-191), and `Backend.Progress` follows the code.
- **Failed fetches.** The design halts a run at the first date whose fetch
  fails, so that the next run retries from there. The code saves whatever
  `get_daily_data` returned, error or not, and carries on. `Backend.SyncData`
  models the code; the Findings section below shows the consequence, and
  `Backend.SyncDataStoppingOnError` models the intended behaviour.

Two details of the code are modelled as written:

- At modules/backend.py:143 the strength test also reads `or not avg_hr`.
  That clause can never hold, because line 137 already skipped activities
  without a heart rate. The model's rule is "strength and a non-zero heart
  rate".
- The calendar's week total at frontend.py:294 compares only the month
  number of each grid day, not its year.

## Model

| member | source | states |
|---|---|---|
| Backend.StepTier | modules/backend.py:119-129 | step points are 8 exactly from 12500 steps, 5 exactly in [10000, 12500), 3 exactly in [7000, 10000) and 0 below 7000; the tiers are exclusive |
| Backend.StepTierMonotone | modules/backend.py:124-129 | more steps never earn fewer step points |
| Backend.CalculatePoints | modules/backend.py:113-154 | the loop's result is the step tier (a missing step count read as 0) plus the sum of the activities' points, and is never negative |
| Backend.ActivityPointsBounds | modules/backend.py:133-152 | one activity earns at most 8 points per whole 30-minute block, and nothing without a heart rate or under one block |
| Backend.SessionsPointsAppend | modules/backend.py:132-152 | the activity points of a concatenation are the sum of the parts' points |
| Backend.ScoreIgnoresOrder | modules/backend.py:117-154 | the day's points do not depend on the order of the activities (any permutation gives the same total) |
| Backend.SessionsPointsSingle | modules/backend.py:132-152 | a one-activity list earns exactly that activity's points |
| Backend.NoHeartRateNoPoints | modules/backend.py:135-138 | an activity with a missing or zero average heart rate adds nothing, wherever it sits in the list and whatever its type or duration |
| Backend.StrengthAnyHeartRate | modules/backend.py:140-144 | a strength activity with any non-zero heart rate earns 8 per whole 1800 seconds |
| Backend.CardioRates | modules/backend.py:145-152 | a non-strength activity earns 8 per block above 110 bpm, 5 per block from 90 to 110 bpm inclusive, and nothing below 90 bpm |
| Backend.ScoreIsUncapped | modules/backend.py:117-154 | n blocks of hard cardio earn 8n points for every n: the total has no cap |
| Backend.RunningIsNotStrength | modules/backend.py:143 | "running" does not contain "strength" once lower-cased |
| Backend.StrengthTrainingIsStrength | modules/backend.py:143 | "strength_training" counts as strength |
| Backend.BlockBoundaryExamples | modules/backend.py:140-149 | 1800 s is one block, 1799 s is none, and 2100 s (35 minutes) is still one block |
| Backend.StepOnlyExamples | modules/backend.py:119-129 | 13000 steps earn 8 points; a missing step count earns 0 |
| Backend.StrengthHourExample | modules/backend.py:119-144 | an hour of strength training at 110 bpm on a 13000-step day earns 8 + 16 = 24 |
| Backend.StartingWithMembers | modules/backend.py:75-79 | an activity is kept exactly when it is in the listing and its start time begins with the key |
| Backend.StartingWithAppend | modules/backend.py:75-79 | filtering keeps the listing's order: filtering a concatenation concatenates the filtered parts |
| Backend.DayActivities | modules/backend.py:75-79 | the appending loop yields exactly the listing's activities whose start time begins with the date's ISO string, in listing order |
| Backend.SelectSteps | modules/backend.py:81-101 | a future date gets 0 steps; otherwise the steps of the first history entry with that date, 0 when none matches, when its total is null or when the history call failed |
| Backend.GetDailyData | modules/backend.py:56-107 | when logged out the answer is 0 steps, no activities and the "Not logged in" error; otherwise every returned activity starts on the requested ISO date, and the answer is the selection above |
| Backend.SyncedRows | modules/backend.py:185-203 | the rows a backfill writes have exactly the dates of the range as keys |
| Backend.SyncData | modules/backend.py:165-206 | start is the latest stored date + 1, or 2025-02-01 for an empty store; if that is after yesterday: only "up to date", no write and an unchanged store; otherwise the dates start..yesterday are saved in increasing order, the progress messages carry (i+1, total) and end with "complete", and the store becomes the old one with every backfilled date written; afterwards the store is current through yesterday, and a store without gaps stays without gaps |
| Backend.Backfill | modules/backend.py:185-203 | the while loop saves the consecutive dates start..yesterday, reports each with its 1-based index out of the day count, and writes each date's scored row over the store |
| Backend.DatesFromAt | modules/backend.py:189-202 | the saved dates are consecutive days from the start, the i-th being start + i |
| Backend.ProgressAt | modules/backend.py:186-191 | the i-th progress message names date start + i with index i + 1 out of the total |
| Backend.BackfilledKeys | modules/backend.py:189-202 | after a backfill the stored dates are the old ones plus every date of the range |
| Backend.BackfilledIsUnion | modules/backend.py:189-202 | upserting the range day by day equals overriding the old store with the range's rows at once |
| Backend.BackfilledContents | modules/backend.py:194-200 | each backfilled date holds its day's steps and activities with the points `calculate_points` gives them; every other date (earlier ones, today) is untouched |
| Backend.SyncedRowsGrow | modules/backend.py:189-202 | extending the range by one date adds exactly that date's row |
| Backend.BackfillMakesYesterdayLatest | modules/backend.py:172-189 | after backfilling from the start date through yesterday, yesterday is the latest stored date |
| Backend.BackfillKeepsContiguity | modules/backend.py:172-189 | a store holding every day from 2025-02-01 to its latest date still does after a backfill |
| Backend.SyncTwice | modules/backend.py:172-183 | a second sync on the same day saves nothing and only reports "up to date"; the store ends exactly as one run leaves it (unchanged when already current, otherwise the backfill through yesterday) |
| Backend.LoggedOutSyncStoresEmptyDays | modules/backend.py:63-64 | as written, a run made while logged out stores a row of 0 steps, 0 points and no activities for every date it covers |
| Backend.CleanDays | modules/backend.py:189-202 | the number of dates fetched without error before the first failure is at most the number of dates in the run |
| Backend.CleanDaysStopsAtFirstError | modules/backend.py:189-202 | every date counted as clean was fetched without error, and when the count stops short of the run's end, the next date's fetch failed |
| Backend.FetchedCleanlyAt | modules/backend.py:189-202 | the recursive "all fetched without error" predicate holds exactly when every one of the dates had no error |
| Backend.CleanDaysUnique | modules/backend.py:189-202 | any count that is error-free up to itself and stops at the run's end or at a failing date equals the clean count |
| Backend.PartialBackfillResumes | modules/backend.py:172-176 | after backfilling the first k dates from the sync start, the next run starts at start + k, and a store without gaps stays without gaps |
| Backend.SyncDataStoppingOnError | modules/backend.py:165-206 | corrected sync: up to date as before; otherwise exactly the clean dates before the first failed fetch are saved, in order, with the rows `SyncData` would write; the messages are the progress messages through the failed date followed by `Failed(date)`, or followed by "complete" when no fetch fails |
| Backend.ResumeUntilError | modules/backend.py:185-206 | corrected sync from a known start: the saved dates are exactly the clean dates before the first failure, the store holds their rows, and the messages end with "complete" or with `Failed` for the failed date |
| Backend.BackfillUntilError | modules/backend.py:185-203 | corrected loop: saves consecutive dates from the start, each fetched without error; it stops early exactly when a fetch fails, and then the failed date is the one after the last saved date; the store gets exactly the saved dates' rows |
| Backend.SyncOneDay | modules/backend.py:194-200 | one date of the corrected loop: succeeds exactly when the fetch reports no error; only then is the date's scored row written, otherwise the store is unchanged; a store holding the backfill up to the day before then holds it up to this date |
| Database.MaxDate | modules/database.py:78 | the maximum of a non-empty set of dates is in the set and is at least every member |
| Database.LatestDate | modules/database.py:74-84 | the latest date is None exactly for an empty store, and otherwise is a stored date at least every other stored date |
| Database.DailyStore.constructor | modules/database.py:9-22 | a store created on a fresh database file is empty |
| Database.DailyStore.SaveDailyData | modules/database.py:24-33 | the date's row is replaced in full by (steps, points, activities); every other date keeps its row; saving the same row again changes nothing |
| Database.DailyStore.GetDataForDate | modules/database.py:35-50 | the stored row for the date, or None exactly when the date was never saved |
| Database.DailyStore.GetDataRange | modules/database.py:52-72 | exactly the stored dates d with start <= d <= end, each with its stored row, and nothing for missing dates; empty when start > end |
| Database.DailyStore.GetLatestDate | modules/database.py:74-84 | None exactly when the store is empty, otherwise the maximum stored date |
| Dates.Weekday | frontend.py:175 | `date.weekday()`: Monday is 0 and Sunday 6 |
| Dates.ToCivil | modules/backend.py:176 | a day number becomes a valid Gregorian (year, month, day) |
| Dates.FromCivilOfToCivil | modules/backend.py:176 | the closed-form Gregorian day count of `ToCivil(d)` is `d`: the calendar date is the right one |
| Dates.ToCivilOfFromCivil | modules/backend.py:176 | every valid (year, month, day) is the calendar date of its own day count, so the two conversions are inverse |
| Dates.ToCivilInjective | modules/backend.py:176 | distinct day numbers have distinct calendar dates |
| Dates.FromCivilInjective | modules/backend.py:176 | distinct valid calendar dates have distinct day counts |
| Dates.FromCivilLandmarks | modules/backend.py:176 | 1970-01-01 counts as day 0 and 2025-02-01 as day 20120 |
| Dates.YearOfContainsDay | frontend.py:212 | `end.year` is the year whose January 1st is on or before the date and whose successor's January 1st is after it |
| Dates.MonthOf | frontend.py:294 | `date.month` is in 1..12 |
| Dates.DayOf | frontend.py:184 | `date.day` is in 1..31 |
| Dates.IsoDate | modules/backend.py:78 | `str(date)` is ten characters with '-' at positions 4 and 7 |
| Dates.IsoDateSpellsDate | modules/backend.py:78 | for years 0 to 9999 the three fields of `str(date)` read back as the date's year, month and day |
| Dates.IsoDateInjective | modules/backend.py:78 | for years 0 to 9999 distinct dates have distinct ISO strings, so rows keyed by day number are keyed as by `str(date)` |
| Dates.DateRange | garmin_points.py:77-80 | the dates from start through end inclusive |
| Dates.DateRangeSize | frontend.py:322-323 | the range holds (end - start) + 1 dates, or none when start > end |
| Dates.TrackingEpochIsFebruaryFirst2025 | modules/backend.py:176 | day 20120 is 2025-02-01, the first date an empty store is synced from |
| Dates.TrackingEpochIsSaturday | modules/backend.py:176 | 2025-02-01 is a Saturday |
| Provider.FirstStepMatch | modules/backend.py:92-95 | the scan stops at the first entry with the date: no earlier entry has it, and the end of the list means none does |
| Text.Lower | modules/backend.py:143 | `lower()` keeps the length and lower-cases each ASCII capital |
| Text.LowerKeepsLowercase | modules/backend.py:143 | lower-casing a string without capitals leaves it unchanged |
| Text.Contains | modules/backend.py:143 | a needle at the start of the hay is found, and a needle longer than the hay never is |
| Text.ContainsIffOccurs | modules/backend.py:143 | `needle in hay` holds exactly when the needle occurs at some position of hay |
| Text.DecimalString | frontend.py:246 | `str(points)` is a non-empty string, all digits for a non-negative number, a '-' then digits for a negative one, and without a leading zero |
| Text.DecimalStringReadsBack | frontend.py:246 | reading the digits of `str(n)` back gives n (after the '-' for a negative n): `int(str(n)) == n` |
| Text.Padded | modules/backend.py:78 | the zero-padded year, month and day fields of an ISO date have their fixed widths and are all digits |
| Text.PaddedValue | modules/backend.py:78 | a number below 10^width reads back from its zero-padded digits |
| Text.DigitsValueInjective | modules/backend.py:78 | two digit strings of one width with the same value are the same string |
| GarminPoints.PointsFromSteps | garmin_points.py:23-30 | step points are one of 0, 3, 5 and 8 |
| GarminPoints.PointsFromStepsMonotone | garmin_points.py:23-30 | more steps never earn fewer points |
| GarminPoints.StepRulesAgree | garmin_points.py:23-30 | the script's step tiers equal the sync engine's step tiers for every step count |
| GarminPoints.PointsFromActivity | garmin_points.py:33-40 | non-negative for non-negative seconds; 0 under 1800 s; 0 below 90 bpm |
| GarminPoints.PointsFromStrength | garmin_points.py:43-47 | non-negative for non-negative seconds; 0 under 1800 s; 0 at or below 105 bpm, 105 included; above 105 bpm, 8 per whole 30 minutes |
| GarminPoints.PointsFromActivityMonotoneInTime | garmin_points.py:33-40 | more active time at the same heart rate never earns fewer points |
| GarminPoints.PointsFromActivityMonotoneInRate | garmin_points.py:33-40 | a higher heart rate over the same time never earns fewer points |
| GarminPoints.ActivityBoundaries | garmin_points.py:35-39 | exactly 110 and exactly 90 bpm use the 5-point rate, just above 110 the 8-point rate, just below 90 none; 1799 s scores 0 |
| GarminPoints.StrengthBoundaries | garmin_points.py:43-47 | 105 bpm exactly earns no strength points, 105.5 bpm does; 1799 s earns none |
| GarminPoints.CardioRulesAgree | garmin_points.py:33-40 | for a non-strength activity the script's rule and the sync engine's rule give the same points |
| GarminPoints.StrengthRulesDisagree | garmin_points.py:43-47 | a strength block at a heart rate in (0, 105] earns 8 or more under the sync engine and 0 under the script |
| GarminPoints.StrengthRulesAgreeAbove105 | garmin_points.py:43-47 | above 105 bpm the script's strength rule and the sync engine's give the same points for every strength activity, so the two differ only on (0, 105] |
| GarminPoints.StepPointsFor | garmin_points.py:54-59 | step points are the step rule applied to the total of the first history entry with the target date, and 0 when none has it; the lookup fails exactly when that entry's total is null |
| GarminPoints.DayPoints | garmin_points.py:50-72 | the day total fails exactly when the step lookup fails |
| GarminPoints.EmptyDayScoresZero | garmin_points.py:54-72 | no history entry for the date and a summary without the keys give a total of 0 |
| GarminPoints.DayPointsNonNegative | garmin_points.py:50-72 | non-negative seconds give a non-negative total; with no matching history entry the total is activity points plus strength points |
| GarminPoints.FetchPointsByDate | garmin_points.py:50-72 | the scanning loop and the summary defaults compute the day total |
| GarminPoints.FetchPointsForRange | garmin_points.py:75-81 | the result's keys are exactly the dates start..end, each mapped to its day total, and it is empty when start > end; it fails exactly when some date's lookup fails |
| Frontend.MockBase | frontend.py:175-183 | the base value is one of 4, 6, 8 and 9: 9 exactly on Saturday and Sunday, 6 exactly on Monday, 8 exactly on Wednesday, 4 otherwise |
| Frontend.MockPoint | frontend.py:175-185 | every mock value is non-negative and within one of its weekday's base |
| Frontend.MockFetchPointsByDate | frontend.py:166-188 | one entry per date of start..end, (end - start) + 1 in all, the i-th date's value being its mock point with seed i |
| Frontend.MockValuesInRange | frontend.py:316-328 | every value in the mock's result is a non-negative integer within one of its base, keyed by a date of the range |
| Frontend.IsFuture | frontend.py:204-205 | today is not in the future and tomorrow is |
| Frontend.WeekDateRangeFor | frontend.py:198-201 | the week's first day is a Monday, its last is six days later, and the date lies between them |
| Frontend.WeekIsUnique | frontend.py:198-201 | any Monday at most six days before the date is the week's Monday |
| Frontend.WeekDaysShareWeek | frontend.py:198-201 | every day of a week has that same week |
| Frontend.MonthAt | frontend.py:208-218 | a month number gives a month in 1..12 of the matching year |
| Frontend.MonthsSince | frontend.py:208-218 | empty exactly when the start is after the end's month; for a start month in 1..12 the result holds the consecutive months from the start through the end's month, each with a month in 1..12 |
| Frontend.CircleClasses | frontend.py:225-231 | the base class comes first; a future day gets exactly "future"; "outer-green" exactly for 8 points or more on a day not in the future; "inner-green" exactly for a week total of 40 or more on a day not in the future; the list holds the base class plus one entry per condition that holds, and nothing else |
| Frontend.RenderDayCircle | frontend.py:224-234 | the home circle's classes as above, with no extra or repeated class, its label the weekday's three-letter name, its text the points |
| Frontend.RenderMiniCircle | frontend.py:237-247 | the mini circle's classes as above, with no extra or repeated class; its content is empty exactly for a future day, and the points otherwise |
| Frontend.CountedPoints | frontend.py:294 | a grid day in the displayed month and not in the future contributes its stored points, 0 when none are stored; any other day contributes nothing |
| Frontend.CalendarWeekTotal | frontend.py:294 | a week with no day of the displayed month up to today totals 0 |
| Frontend.CalendarWeekTotalSingleDay | frontend.py:294 | a one-day run totals that day's counted points, its stored points when it is in the month and not after today; with the append lemma this fixes every week's total as the sum of its counted days |
| Frontend.CalendarWeekTotalAppend | frontend.py:294 | the week total of two runs of days is the sum of their totals |
| Frontend.CalendarWeekTotalIgnoresOtherDays | frontend.py:294 | only days of the displayed month up to today count: stores that give those days the same points, a missing day reading as 0, give the same total |
| Frontend.MissingDayCountsZero | frontend.py:294 | a day missing from the store counts exactly as a day stored with 0 points |
| Frontend.CalendarWeekTotalBounds | frontend.py:294 | with non-negative stored points the total is at least each counted day's points |
| Frontend.CalendarWeekTotalNonNegative | frontend.py:294 | with non-negative stored points the total is non-negative |

## Findings

| source | as written | input that shows it | evidently intended | confidence | as-written member | corrected member |
|---|---|---|---|---|---|---|
| modules/backend.py:194-200 | the sync loop saves `get_daily_data`'s result even when it carries an `error`, so a failed fetch is stored as a day of 0 steps and 0 points; the store then counts as current through yesterday and the date is never fetched again | a logged-out session, an empty store and today = 2025-02-03: the run stores 2025-02-01 and 2025-02-02 as empty days | stop at the first failed date with an error message, save nothing for it, and let the next run start again from that date | medium, not executed | Backend.LoggedOutSyncStoresEmptyDays | Backend.SyncDataStoppingOnError |

## Left out

- Authentication and every remote call:
  - `login` (modules/backend.py:10-54);
  - `garmin_client.get_activities` and `garth.DailySteps.list` (modules/backend.py:70, 91);
  - `garmin_login` and `client.get_stats` (garmin_points.py:12-20, 54, 62).

  Their answers are inputs: `Backend.DayFeed` and `GarminPoints.GarminDay`.
- Backend.SyncData: each day's answer of `get_daily_data` is the input
  function `fetch`. The sync loop does not re-derive it from the provider's
  replies; `Backend.GetDailyData` models how that answer is built.
- The outer `except` of `get_daily_data` (modules/backend.py:109-111) is not
  modelled. It would return the exception text as `error`, but with the
  inputs modelled here nothing can raise.
- SQLite and JSON: connections and `json.dumps`/`json.loads`. The activity
  list is stored and returned unchanged.
- Database.DailyStore.constructor: models `init_db` on a fresh database file
  only. On an existing file `CREATE TABLE IF NOT EXISTS` keeps the stored
  rows, which the model does not capture.
- Database.DailyStore.GetDataRange: dates are compared as day numbers. The
  source compares ISO strings, which order like dates only for years 0000
  to 9999.
- Float arithmetic:
  - `duration_sec / 60` and `int(duration_mins / 30)` (modules/backend.py:140-152)
    are modelled as floor division of whole seconds;
  - a fractional duration, and float rounding of huge durations, are not
    modelled.
- Text.Lower: `str.lower()` is modelled on ASCII letters only. Unicode case
  mapping is not modelled.
- Provider.Activity: a null `duration` or `activityType` cannot be
  represented. In the source such a value makes `calculate_points` raise
  (modules/backend.py:133, 140). `sync_data` has no handler around that call
  (modules/backend.py:197), so the run would stop there, after the earlier
  dates were already saved. This early exit is not modelled.
- Text.Padded: `Text.PaddedValue` states the digits' value only for numbers
  that fit the width (years 0 to 9999), not the truncation of wider ones.
- A null `activeSeconds`, `highlyActiveSeconds` or `restingHeartRate` in the
  daily summary would raise in garmin_points.py:66-69. It is not modelled:
  a field is either present or missing (read as 0).
- The wall clock (`date.today()`) is the parameter `today`.
- Python's `date` range: day numbers are unbounded integers. `Dates.IsoDate`
  clamps years below 0 to 0 and is meant for years 0 to 9999.
- The progress callback being None (no messages at all) is not modelled. The
  messages are modelled as `SyncStatus` values rather than formatted strings.
- Streamlit pages and HTML/CSS assembly are not modelled:
  - the `class` attribute string, the `title` and the surrounding markup of
    the circles;
  - `generate_static_preview` beyond its week-total rule (frontend.py:253-310);
  - `itermonthdates` and the month grid;
  - the home page's week total;
  - app.py, modules/home.py and modules/calendar_page.py.
- The `fetch_points_by_date` wrapper (frontend.py:191-192) only forwards to
  the mock loader.
- garmin-activity-fetcher.py, an interactive command-line tool, is not part
  of this model.
