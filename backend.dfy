/** The points rules, the per-day data selection and the incremental sync of
    modules/backend.py. Remote calls are inputs: a `DayFeed` holds what the
    provider answered while one date was being fetched. */
module Backend {
  import opened Wrappers
  import opened Dates
  import opened Provider
  import Text
  import Database

  // ---------------------------------------------------------------------
  // calculate_points
  // ---------------------------------------------------------------------

  /** Points for the day's step count: the highest tier reached, tiers never add up. */
  function StepTier(steps: int): (p: nat)
    ensures p == 8 <==> 12500 <= steps
    ensures p == 5 <==> 10000 <= steps < 12500
    ensures p == 3 <==> 7000 <= steps < 10000
    ensures p == 0 <==> steps < 7000
  {
    if steps >= 12500 then 8
    else if steps >= 10000 then 5
    else if steps >= 7000 then 3
    else 0
  }

  /** A higher step count never earns fewer step points. */
  lemma StepTierMonotone(fewer: int, more: int)
    requires fewer <= more
    ensures StepTier(fewer) <= StepTier(more)
  {
  }

  /** Python's truthiness of `averageHR`: absent, null and zero all mean "no heart-rate data". */
  predicate HasHeartRate(a: Activity) {
    a.averageHR.Some? && a.averageHR.value != 0.0
  }

  /** `'strength' in typeKey.lower()`. */
  predicate IsStrength(a: Activity) {
    Text.Contains(Text.Lower(a.typeKey), "strength")
  }

  /** Whole 30-minute blocks in a duration given in seconds. */
  function Blocks(seconds: nat): nat {
    seconds / 1800
  }

  /** What one activity adds to the day. */
  function ActivityPoints(a: Activity): nat {
    if !HasHeartRate(a) then 0
    else if IsStrength(a) then Blocks(a.duration) * 8
    else if a.averageHR.value > 110.0 then Blocks(a.duration) * 8
    else if 90.0 <= a.averageHR.value <= 110.0 then Blocks(a.duration) * 5
    else 0
  }

  /** One activity earns at most 8 points per whole 30-minute block, and
      nothing without a heart rate or under one block. */
  lemma ActivityPointsBounds(a: Activity)
    ensures ActivityPoints(a) <= 8 * Blocks(a.duration)
    ensures !HasHeartRate(a) || a.duration < 1800 ==> ActivityPoints(a) == 0
  {
  }

  /** The activities' points added up, first to last. */
  function SessionsPoints(acts: seq<Activity>): nat {
    if acts == [] then 0
    else SessionsPoints(acts[..|acts| - 1]) + ActivityPoints(acts[|acts| - 1])
  }

  /** The day's points: step tier (a null count counts as 0 steps) plus every activity's points. */
  function Score(steps: Option<int>, acts: seq<Activity>): nat {
    StepTier(steps.GetOr(0)) + SessionsPoints(acts)
  }

  /** The loop of `calculate_points`, proved to compute `Score`. */
  method CalculatePoints(steps: Option<int>, activities: seq<Activity>) returns (points: int)
    ensures points == Score(steps, activities)
    ensures points >= 0
  {
    points := 0;
    var count := steps.GetOr(0);
    if count >= 12500 {
      points := points + 8;
    } else if count >= 10000 {
      points := points + 5;
    } else if count >= 7000 {
      points := points + 3;
    }
    var i := 0;
    while i < |activities|
      invariant 0 <= i <= |activities|
      invariant points == StepTier(count) + SessionsPoints(activities[..i])
    {
      var act := activities[i];
      assert activities[..i + 1][..i] == activities[..i];
      if HasHeartRate(act) {
        var blocks := act.duration / 1800;
        if IsStrength(act) {
          points := points + blocks * 8;
        } else if act.averageHR.value > 110.0 {
          points := points + blocks * 8;
        } else if 90.0 <= act.averageHR.value <= 110.0 {
          points := points + blocks * 5;
        }
      }
      i := i + 1;
    }
    assert activities[..i] == activities;
  }

  lemma {:induction false} SessionsPointsAppend(first: seq<Activity>, second: seq<Activity>)
    ensures SessionsPoints(first + second) == SessionsPoints(first) + SessionsPoints(second)
    decreases |second|
  {
    if second == [] {
      assert first + second == first;
    } else {
      var last := |second| - 1;
      assert (first + second)[..|first + second| - 1] == first + second[..last];
      SessionsPointsAppend(first, second[..last]);
    }
  }

  /** The total does not depend on the order in which the activities are listed. */
  lemma {:induction false} ScoreIgnoresOrder(steps: Option<int>, acts: seq<Activity>, reordered: seq<Activity>)
    requires multiset(acts) == multiset(reordered)
    ensures Score(steps, acts) == Score(steps, reordered)
    decreases |acts|
  {
    if acts != [] {
      var n := |acts| - 1;
      var x := acts[n];
      assert acts == acts[..n] + [x];
      assert x in multiset(reordered);
      var k :| 0 <= k < |reordered| && reordered[k] == x;
      var rest := reordered[..k] + reordered[k + 1..];
      assert reordered == reordered[..k] + [x] + reordered[k + 1..];
      assert multiset(reordered) == multiset(reordered[..k]) + multiset([x]) + multiset(reordered[k + 1..]);
      assert multiset(rest) == multiset(reordered[..k]) + multiset(reordered[k + 1..]);
      assert multiset(acts) == multiset(acts[..n]) + multiset([x]);
      assert multiset(acts[..n]) == multiset(acts) - multiset([x]);
      assert multiset(rest) == multiset(reordered) - multiset([x]);
      ScoreIgnoresOrder(steps, acts[..n], rest);
      SessionsPointsAppend(reordered[..k] + [x], reordered[k + 1..]);
      SessionsPointsAppend(reordered[..k], [x]);
      SessionsPointsAppend(reordered[..k], reordered[k + 1..]);
    } else {
      assert reordered == [];
    }
  }

  lemma SessionsPointsSingle(a: Activity)
    ensures SessionsPoints([a]) == ActivityPoints(a)
  {
    assert [a][..0] == [];
  }

  /** An activity without heart-rate data changes nothing, wherever it is listed. */
  lemma NoHeartRateNoPoints(steps: Option<int>, before: seq<Activity>, a: Activity, after: seq<Activity>)
    requires !HasHeartRate(a)
    ensures Score(steps, before + [a] + after) == Score(steps, before + after)
  {
    SessionsPointsAppend(before + [a], after);
    SessionsPointsAppend(before, [a]);
    SessionsPointsAppend(before, after);
    SessionsPointsSingle(a);
  }

  /** A strength activity with any non-zero heart rate earns 8 per whole 30 minutes. */
  lemma StrengthAnyHeartRate(steps: Option<int>, a: Activity)
    requires HasHeartRate(a) && IsStrength(a)
    ensures Score(steps, [a]) == StepTier(steps.GetOr(0)) + (a.duration / 1800) * 8
  {
    SessionsPointsSingle(a);
  }

  /** Any other activity earns 8 per block above 110 bpm, 5 per block from 90
      to 110 bpm inclusive, and nothing below 90 bpm. */
  lemma CardioRates(steps: Option<int>, a: Activity)
    requires HasHeartRate(a) && !IsStrength(a)
    ensures a.averageHR.value > 110.0 ==>
      Score(steps, [a]) == StepTier(steps.GetOr(0)) + (a.duration / 1800) * 8
    ensures 90.0 <= a.averageHR.value <= 110.0 ==>
      Score(steps, [a]) == StepTier(steps.GetOr(0)) + (a.duration / 1800) * 5
    ensures a.averageHR.value < 90.0 ==> Score(steps, [a]) == StepTier(steps.GetOr(0))
  {
    SessionsPointsSingle(a);
  }

  /** There is no cap: n whole blocks of hard cardio earn 8n points. */
  lemma ScoreIsUncapped(n: nat)
    ensures Score(Some(0), [Activity("running", "", 1800 * n, Some(120.0))]) == 8 * n
  {
    var a := Activity("running", "", 1800 * n, Some(120.0));
    RunningIsNotStrength(a);
    SessionsPointsSingle(a);
    assert (1800 * n) / 1800 == n;
  }

  lemma RunningIsNotStrength(a: Activity)
    requires a.typeKey == "running"
    ensures !IsStrength(a)
  {
    Text.ContainsIffOccurs(Text.Lower("running"), "strength");
  }

  lemma StrengthTrainingIsStrength(a: Activity)
    requires a.typeKey == "strength_training"
    ensures IsStrength(a)
  {
    Text.LowerKeepsLowercase(a.typeKey);
    assert a.typeKey[..8] == "strength";
  }

  /** 1800 seconds is one block and 1799 is none; 35 minutes at 115 bpm is one block. */
  lemma BlockBoundaryExamples()
    ensures Score(Some(0), [Activity("running", "", 1800, Some(115.0))]) == 8
    ensures Score(Some(0), [Activity("running", "", 1799, Some(115.0))]) == 0
    ensures Score(Some(0), [Activity("running", "", 2100, Some(115.0))]) == 8
  {
    var a1 := Activity("running", "", 1800, Some(115.0));
    var a2 := Activity("running", "", 1799, Some(115.0));
    var a3 := Activity("running", "", 2100, Some(115.0));
    RunningIsNotStrength(a1);
    RunningIsNotStrength(a2);
    RunningIsNotStrength(a3);
    SessionsPointsSingle(a1);
    SessionsPointsSingle(a2);
    SessionsPointsSingle(a3);
  }

  /** Steps alone: 13000 steps earn the top tier and a missing count earns nothing. */
  lemma StepOnlyExamples()
    ensures Score(Some(13000), []) == 8
    ensures Score(None, []) == 0
  {
  }

  /** A strength hour at 110 bpm on a 13000-step day earns 8 + 16 points. */
  lemma StrengthHourExample(lift: Activity)
    requires lift.typeKey == "strength_training" && lift.duration == 3600 && lift.averageHR == Some(110.0)
    ensures Score(Some(13000), [lift]) == 24
  {
    StrengthTrainingIsStrength(lift);
    SessionsPointsSingle(lift);
  }

  // ---------------------------------------------------------------------
  // get_daily_data
  // ---------------------------------------------------------------------

  /** What the provider answers while one date is fetched: whether both clients
      are logged in, the recent-activities listing (None when that call
      raised), and the step history for a requested window width in days
      (None when that call raised). */
  datatype DayFeed = DayFeed(
    loggedIn: bool,
    recentActivities: Option<seq<Activity>>,
    stepHistory: int -> Option<seq<StepEntry>>)

  /** The dictionary `get_daily_data` returns. */
  datatype DailyData = DailyData(date: Date, steps: int, activities: seq<Activity>, error: Option<string>)

  /** The activities of `listing` whose local start time begins with `key`, in listing order. */
  function StartingWith(listing: seq<Activity>, key: string): seq<Activity> {
    if listing == [] then []
    else
      var last := listing[|listing| - 1];
      StartingWith(listing[..|listing| - 1], key) + (if key <= last.startTimeLocal then [last] else [])
  }

  lemma {:induction false} StartingWithMembers(listing: seq<Activity>, key: string, a: Activity)
    ensures a in StartingWith(listing, key) <==> a in listing && key <= a.startTimeLocal
  {
    if listing != [] {
      var n := |listing| - 1;
      StartingWithMembers(listing[..n], key, a);
      assert listing == listing[..n] + [listing[n]];
    }
  }

  /** Filtering a concatenation filters each part and keeps their order. */
  lemma {:induction false} StartingWithAppend(first: seq<Activity>, second: seq<Activity>, key: string)
    ensures StartingWith(first + second, key) == StartingWith(first, key) + StartingWith(second, key)
    decreases |second|
  {
    if second == [] {
      assert first + second == first;
    } else {
      var n := |second| - 1;
      assert (first + second)[..|first + second| - 1] == first + second[..n];
      StartingWithAppend(first, second[..n], key);
    }
  }

  /** The loop that builds `day_activities` from the listing. */
  method DayActivities(date: Date, listing: seq<Activity>) returns (dayActivities: seq<Activity>)
    ensures dayActivities == StartingWith(listing, IsoDate(date))
  {
    var key := IsoDate(date);
    dayActivities := [];
    var i := 0;
    while i < |listing|
      invariant 0 <= i <= |listing|
      invariant dayActivities == StartingWith(listing[..i], key)
    {
      assert listing[..i + 1][..i] == listing[..i];
      if key <= listing[i].startTimeLocal {
        dayActivities := dayActivities + [listing[i]];
      }
      i := i + 1;
    }
    assert listing[..i] == listing;
  }

  /** The window `DailySteps.list` is asked for: two days more than `date` is old. */
  function StepWindow(date: Date, today: Date): int {
    (today - date) + 2
  }

  /** The step count taken from a step history: the first entry dated `date`,
      0 when none is, when its total is null, or when the history call raised. */
  function StepsFromHistory(history: Option<seq<StepEntry>>, date: Date): int {
    if history.None? then 0
    else
      var i := FirstStepMatch(history.value, date);
      if i == |history.value| then 0 else history.value[i].totalSteps.GetOr(0)
  }

  /** The step lookup of `get_daily_data`: nothing is requested for a future
      date; otherwise the first matching history entry wins. */
  method SelectSteps(date: Date, today: Date, stepHistory: int -> Option<seq<StepEntry>>) returns (steps: int)
    ensures date > today ==> steps == 0
    ensures date <= today ==> steps == StepsFromHistory(stepHistory(StepWindow(date, today)), date)
  {
    var found: Option<int> := Some(0);
    if today - date >= 0 {
      var history := stepHistory(StepWindow(date, today));
      if history.Some? {
        var entries := history.value;
        var i := 0;
        while i < |entries|
          invariant 0 <= i <= |entries|
          invariant i <= FirstStepMatch(entries, date)
          invariant found == Some(0)
        {
          if entries[i].calendarDate == date {
            found := entries[i].totalSteps;
            break;
          }
          i := i + 1;
        }
      }
    }
    steps := found.GetOr(0);
  }

  /** What `get_daily_data` returns for `date`, given the provider's answers. */
  function DailyDataOf(date: Date, today: Date, feed: DayFeed): DailyData {
    if !feed.loggedIn then DailyData(date, 0, [], Some("Not logged in"))
    else
      DailyData(
        date,
        if date > today then 0 else StepsFromHistory(feed.stepHistory(StepWindow(date, today)), date),
        StartingWith(feed.recentActivities.GetOr([]), IsoDate(date)),
        None)
  }

  method GetDailyData(date: Date, today: Date, feed: DayFeed) returns (data: DailyData)
    ensures data == DailyDataOf(date, today, feed)
    ensures !feed.loggedIn ==> data.steps == 0 && data.activities == []
    ensures forall a :: a in data.activities ==> IsoDate(date) <= a.startTimeLocal
  {
    if !feed.loggedIn {
      return DailyData(date, 0, [], Some("Not logged in"));
    }
    var listing := feed.recentActivities.GetOr([]);
    var dayActivities := DayActivities(date, listing);
    var steps := SelectSteps(date, today, feed.stepHistory);
    data := DailyData(date, steps, dayActivities, None);
    forall a | a in data.activities
      ensures IsoDate(date) <= a.startTimeLocal
    {
      StartingWithMembers(listing, IsoDate(date), a);
    }
  }

  // ---------------------------------------------------------------------
  // sync_data
  // ---------------------------------------------------------------------

  /** The messages `status_callback` receives. */
  datatype SyncStatus =
    | UpToDate
    | Syncing(date: Date, index: nat, total: nat)
    | Complete
    | Failed(date: Date)

  /** The first date a sync run fetches: the day after the latest stored one,
      or the tracking epoch for an empty store. */
  ghost function SyncStart(rows: map<Date, Database.Row>): Date {
    match Database.LatestDate(rows)
    case None => TrackingEpoch
    case Some(latest) => latest + 1
  }

  /** The row a sync run stores for a day's data: its steps, the points
      `calculate_points` gives them, and its activities. */
  function SyncedRow(data: DailyData): Database.Row {
    Database.Row(data.steps, Score(Some(data.steps), data.activities), data.activities)
  }

  /** The rows a backfill of `start..end` writes, one per date. */
  function SyncedRows(start: Date, end: Date, fetch: Date -> DailyData): (rows: map<Date, Database.Row>)
    ensures forall d :: d in rows <==> start <= d <= end
  {
    map d | start <= d <= end :: SyncedRow(fetch(d))
  }

  /** Every date from the first one stored through the latest one is stored. */
  ghost predicate Contiguous(rows: map<Date, Database.Row>) {
    forall d :: d in rows ==> TrackingEpoch <= d && forall e :: TrackingEpoch <= e <= d ==> e in rows
  }

  /** One run of `sync_data`. `fetch(d)` is what `get_daily_data` answers
      for date `d` during this run (see `GetDailyData` for how that answer is
      built from the provider's replies). `messages` are the callback's
      messages in order; `saved` lists the dates written to the store, in
      the order written. Either the store is already current through
      yesterday and nothing is fetched or written, or every date from the
      start date through yesterday is fetched, scored and upserted in
      increasing order, and nothing else in the store changes
      (`BackfilledIsUnion`). */
  method SyncData(store: Database.DailyStore, today: Date, fetch: Date -> DailyData)
    returns (messages: seq<SyncStatus>, saved: seq<Date>)
    modifies store
    ensures var start := SyncStart(old(store.rows));
      start > today - 1 ==> messages == [UpToDate] && saved == [] && store.rows == old(store.rows)
    ensures var start := SyncStart(old(store.rows));
      start <= today - 1 ==>
        && saved == DatesFrom(start, today - start)
        && messages == Progress(start, today - start, today - start) + [Complete]
        && store.rows == Backfilled(old(store.rows), start, today - 1, fetch)
    ensures SyncStart(store.rows) > today - 1
    ensures Contiguous(old(store.rows)) ==> Contiguous(store.rows)
  {
    var latest := store.GetLatestDate();
    var yesterday := today - 1;
    var start := TrackingEpoch;
    if latest.Some? {
      start := latest.value + 1;
    }
    ghost var before := store.rows;
    assert start == SyncStart(before);
    if start > yesterday {
      return [UpToDate], [];
    }
    messages, saved := Backfill(store, start, yesterday, fetch);
    messages := messages + [Complete];
    BackfilledKeys(before, start, yesterday, fetch);
    BackfillMakesYesterdayLatest(before, store.rows, start, yesterday);
    if Contiguous(before) {
      BackfillKeepsContiguity(before, store.rows, start, yesterday);
    }
  }

  /** The loop of `sync_data`: fetch, score and upsert every date of
      `start..yesterday` in increasing order, reporting progress before each. */
  method Backfill(store: Database.DailyStore, start: Date, yesterday: Date, fetch: Date -> DailyData)
    returns (messages: seq<SyncStatus>, saved: seq<Date>)
    requires start <= yesterday
    modifies store
    ensures saved == DatesFrom(start, yesterday - start + 1)
    ensures messages == Progress(start, yesterday - start + 1, yesterday - start + 1)
    ensures store.rows == Backfilled(old(store.rows), start, yesterday, fetch)
  {
    ghost var before := store.rows;
    var current := start;
    var total := (yesterday - start) + 1;
    var processed := 0;
    messages, saved := [], [];
    while current <= yesterday
      invariant start <= current <= yesterday + 1
      invariant processed == current - start
      invariant saved == DatesFrom(start, processed)
      invariant messages == Progress(start, processed, total)
      invariant store.rows == Backfilled(before, start, current - 1, fetch)
      decreases yesterday - current
    {
      messages := messages + [Syncing(current, processed + 1, total)];
      var data := fetch(current);
      var points := CalculatePoints(Some(data.steps), data.activities);
      store.SaveDailyData(current, data.steps, points, data.activities);
      saved := saved + [current];
      current := current + 1;
      processed := processed + 1;
    }
  }

  /** The `n` consecutive dates from `start` on. */
  function DatesFrom(start: Date, n: nat): (dates: seq<Date>)
    ensures |dates| == n
  {
    if n == 0 then [] else DatesFrom(start, n - 1) + [start + n - 1]
  }

  /** The first `n` progress messages of a run over `total` dates from `start`. */
  function Progress(start: Date, n: nat, total: nat): (messages: seq<SyncStatus>)
    ensures |messages| == n
  {
    if n == 0 then [] else Progress(start, n - 1, total) + [Syncing(start + n - 1, n, total)]
  }

  /** The `i`-th saved date is `start + i`. */
  lemma {:induction false} DatesFromAt(start: Date, n: nat)
    ensures forall i :: 0 <= i < n ==> DatesFrom(start, n)[i] == start + i
  {
    if n > 0 {
      DatesFromAt(start, n - 1);
    }
  }

  /** The `i`-th progress message reports date `start + i` as number `i + 1` of `total`. */
  lemma {:induction false} ProgressAt(start: Date, n: nat, total: nat)
    ensures forall i :: 0 <= i < n ==> Progress(start, n, total)[i] == Syncing(start + i, i + 1, total)
  {
    if n > 0 {
      ProgressAt(start, n - 1, total);
    }
  }

  /** `before` with the synced rows of `start..end` written over it one date at a time. */
  ghost function Backfilled(before: map<Date, Database.Row>, start: Date, end: Date, fetch: Date -> DailyData): map<Date, Database.Row>
    decreases end - start
  {
    if end < start then before
    else Backfilled(before, start, end - 1, fetch)[end := SyncedRow(fetch(end))]
  }

  lemma {:induction false} BackfilledKeys(before: map<Date, Database.Row>, start: Date, end: Date, fetch: Date -> DailyData)
    ensures forall d :: d in Backfilled(before, start, end, fetch) <==> d in before || start <= d <= end
    decreases end - start
  {
    if end >= start {
      BackfilledKeys(before, start, end - 1, fetch);
    }
  }

  lemma {:induction false} BackfilledIsUnion(before: map<Date, Database.Row>, start: Date, end: Date, fetch: Date -> DailyData)
    ensures Backfilled(before, start, end, fetch) == before + SyncedRows(start, end, fetch)
    decreases end - start
  {
    if end >= start {
      BackfilledIsUnion(before, start, end - 1, fetch);
      SyncedRowsGrow(before, start, end, fetch);
    } else {
      assert SyncedRows(start, end, fetch) == map[];
    }
  }

  /** Date by date: a backfilled date holds the row scored from that day's
      data, and every other date (earlier ones, today, later ones) is exactly
      as before. */
  lemma BackfilledContents(before: map<Date, Database.Row>, start: Date, end: Date, fetch: Date -> DailyData, d: Date)
    ensures start <= d <= end ==>
      d in Backfilled(before, start, end, fetch)
      && Backfilled(before, start, end, fetch)[d]
         == Database.Row(fetch(d).steps, Score(Some(fetch(d).steps), fetch(d).activities), fetch(d).activities)
    ensures !(start <= d <= end) ==>
      (d in Backfilled(before, start, end, fetch) <==> d in before)
      && (d in before ==> Backfilled(before, start, end, fetch)[d] == before[d])
  {
    BackfilledIsUnion(before, start, end, fetch);
  }

  lemma SyncedRowsGrow(before: map<Date, Database.Row>, start: Date, current: Date, fetch: Date -> DailyData)
    requires start <= current
    ensures (before + SyncedRows(start, current - 1, fetch))[current := SyncedRow(fetch(current))]
         == before + SyncedRows(start, current, fetch)
  {
  }

  /** After writing one row for every date of `start..yesterday`, the latest
      stored date is `yesterday`. */
  lemma BackfillMakesYesterdayLatest(before: map<Date, Database.Row>, after: map<Date, Database.Row>, start: Date, yesterday: Date)
    requires start == SyncStart(before) && start <= yesterday
    requires forall d :: d in after <==> d in before || start <= d <= yesterday
    ensures Database.LatestDate(after) == Some(yesterday)
  {
    assert yesterday in after;
    forall d | d in after
      ensures d <= yesterday
    {
      if d in before && !(start <= d <= yesterday) {
        assert Database.LatestDate(before).Some?;
      }
    }
  }

  /** Writing one row for every date of `start..yesterday` keeps a contiguous store contiguous. */
  lemma BackfillKeepsContiguity(before: map<Date, Database.Row>, after: map<Date, Database.Row>, start: Date, yesterday: Date)
    requires start == SyncStart(before) && start <= yesterday
    requires forall d :: d in after <==> d in before || start <= d <= yesterday
    requires Contiguous(before)
    ensures Contiguous(after)
  {
    forall d | d in after
      ensures TrackingEpoch <= d && forall e :: TrackingEpoch <= e <= d ==> e in after
    {
      if Database.LatestDate(before).None? {
        assert start == TrackingEpoch;
      } else {
        var last := Database.LatestDate(before).value;
        assert start == last + 1;
        forall e | TrackingEpoch <= e <= d
          ensures e in after
        {
          if e <= last {
            assert e in before;
          }
        }
      }
    }
  }

  /** Running the sync a second time on the same day saves nothing, only
      reports that the data is up to date, and leaves the store exactly as
      the first run left it. */
  method SyncTwice(store: Database.DailyStore, today: Date, fetch: Date -> DailyData)
    returns (second: seq<SyncStatus>, secondSaved: seq<Date>)
    modifies store
    ensures second == [UpToDate] && secondSaved == []
    ensures var start := SyncStart(old(store.rows));
      store.rows == if start > today - 1 then old(store.rows) else Backfilled(old(store.rows), start, today - 1, fetch)
  {
    var first, _ := SyncData(store, today, fetch);
    ghost var afterFirst := store.rows;
    second, secondSaved := SyncData(store, today, fetch);
    assert store.rows == afterFirst;
  }

  // ---------------------------------------------------------------------
  // A failed fetch during a sync
  // ---------------------------------------------------------------------

  /** As written, a sync run that fetches while logged out stores an empty
      row (0 steps, 0 points, no activities) for every date it covers, since
      `get_daily_data` reports the failure only in its `error` field and the
      loop saves the row regardless. `SyncData` then leaves the store current
      through yesterday, so the next run starts after these dates and they
      are never fetched again. */
  lemma LoggedOutSyncStoresEmptyDays(before: map<Date, Database.Row>, start: Date, yesterday: Date, today: Date, feed: DayFeed, d: Date)
    requires !feed.loggedIn
    requires start <= d <= yesterday
    ensures var rows := Backfilled(before, start, yesterday, day => DailyDataOf(day, today, feed));
      d in rows && rows[d] == Database.Row(0, 0, [])
  {
    BackfilledContents(before, start, yesterday, day => DailyDataOf(day, today, feed), d);
    assert Score(Some(0), []) == 0;
  }

  /** How many dates from `start` on, out of `remaining`, are fetched without
      an error before the first failure. */
  function CleanDays(start: Date, remaining: nat, fetch: Date -> DailyData): (k: nat)
    ensures k <= remaining
    decreases remaining
  {
    if remaining == 0 || fetch(start).error.Some? then 0
    else 1 + CleanDays(start + 1, remaining - 1, fetch)
  }

  /** Every date counted by `CleanDays` was fetched without error, and when
      it stops short of `remaining` the next date's fetch failed. */
  lemma {:induction false} CleanDaysStopsAtFirstError(start: Date, remaining: nat, fetch: Date -> DailyData)
    ensures var k := CleanDays(start, remaining, fetch);
      && (forall d :: start <= d < start + k ==> fetch(d).error.None?)
      && (k < remaining ==> fetch(start + k).error.Some?)
    decreases remaining
  {
    if remaining > 0 && fetch(start).error.None? {
      CleanDaysStopsAtFirstError(start + 1, remaining - 1, fetch);
    }
  }

  /** The `n` dates from `start` on were all fetched without error. */
  ghost predicate FetchedCleanly(start: Date, n: nat, fetch: Date -> DailyData) {
    n == 0 || (FetchedCleanly(start, n - 1, fetch) && fetch(start + n - 1).error.None?)
  }

  lemma {:induction false} FetchedCleanlyAt(start: Date, n: nat, fetch: Date -> DailyData)
    ensures FetchedCleanly(start, n, fetch) <==> forall d :: start <= d < start + n ==> fetch(d).error.None?
  {
    if n > 0 {
      FetchedCleanlyAt(start, n - 1, fetch);
    }
  }

  /** `CleanDays` is the only count that is error-free up to itself and
      stops either at the end or at a failing date. */
  lemma {:induction false} CleanDaysUnique(start: Date, remaining: nat, fetch: Date -> DailyData, k: nat)
    requires k <= remaining
    requires forall d :: start <= d < start + k ==> fetch(d).error.None?
    requires k == remaining || fetch(start + k).error.Some?
    ensures k == CleanDays(start, remaining, fetch)
    decreases remaining
  {
    if remaining > 0 && fetch(start).error.None? {
      assert k > 0;
      CleanDaysUnique(start + 1, remaining - 1, fetch, k - 1);
    }
  }

  /** Backfilling the first `clean` dates from the sync start moves the next
      run's start to the first date not backfilled, and keeps a contiguous
      store contiguous. */
  lemma PartialBackfillResumes(before: map<Date, Database.Row>, start: Date, clean: nat, fetch: Date -> DailyData)
    requires start == SyncStart(before)
    ensures SyncStart(Backfilled(before, start, start + clean - 1, fetch)) == start + clean
    ensures Contiguous(before) ==> Contiguous(Backfilled(before, start, start + clean - 1, fetch))
  {
    var after := Backfilled(before, start, start + clean - 1, fetch);
    if clean > 0 {
      BackfilledKeys(before, start, start + clean - 1, fetch);
      BackfillMakesYesterdayLatest(before, after, start, start + clean - 1);
      if Contiguous(before) {
        BackfillKeepsContiguity(before, after, start, start + clean - 1);
      }
    }
  }

  /** The sync as it is evidently meant to behave: a date whose fetch
      reports an error is not saved, the run stops there with a `Failed`
      message, and the next run starts again from that date. Dates fetched
      without error are saved exactly as `SyncData` saves them. */
  method SyncDataStoppingOnError(store: Database.DailyStore, today: Date, fetch: Date -> DailyData)
    returns (messages: seq<SyncStatus>, saved: seq<Date>)
    modifies store
    ensures var start := SyncStart(old(store.rows));
      start > today - 1 ==> messages == [UpToDate] && saved == [] && store.rows == old(store.rows)
    ensures var start := SyncStart(old(store.rows));
      start <= today - 1 ==>
        var total := today - start;
        var clean := CleanDays(start, total, fetch);
        && saved == DatesFrom(start, clean)
        && store.rows == Backfilled(old(store.rows), start, start + clean - 1, fetch)
        && (clean == total ==> messages == Progress(start, total, total) + [Complete])
        && (clean < total ==> messages == Progress(start, clean + 1, total) + [Failed(start + clean)])
  {
    var latest := store.GetLatestDate();
    var yesterday := today - 1;
    var start := TrackingEpoch;
    if latest.Some? {
      start := latest.value + 1;
    }
    ghost var before := store.rows;
    assert start == SyncStart(before);
    if start > yesterday {
      return [UpToDate], [];
    }
    messages, saved := ResumeUntilError(store, start, today, fetch);
  }

  /** The corrected sync once its start date is known: backfill up to the
      first failed fetch, then report "complete" or the failure. */
  method ResumeUntilError(store: Database.DailyStore, start: Date, today: Date, fetch: Date -> DailyData)
    returns (messages: seq<SyncStatus>, saved: seq<Date>)
    requires start <= today - 1
    modifies store
    ensures var total := today - start;
      var clean := CleanDays(start, total, fetch);
      && saved == DatesFrom(start, clean)
      && store.rows == Backfilled(old(store.rows), start, start + clean - 1, fetch)
      && (clean == total ==> messages == Progress(start, total, total) + [Complete])
      && (clean < total ==> messages == Progress(start, clean + 1, total) + [Failed(start + clean)])
  {
    var failed;
    messages, saved, failed := BackfillUntilError(store, start, today - 1, fetch);
    FetchedCleanlyAt(start, |saved|, fetch);
    CleanDaysUnique(start, today - start, fetch, |saved|);
    if !failed {
      messages := messages + [Complete];
    }
  }

  /** The loop of the corrected sync: like `Backfill`, but a date whose
      fetch reports an error ends the loop before anything is saved for it. */
  method BackfillUntilError(store: Database.DailyStore, start: Date, yesterday: Date, fetch: Date -> DailyData)
    returns (messages: seq<SyncStatus>, saved: seq<Date>, failed: bool)
    requires start <= yesterday
    modifies store
    ensures |saved| <= yesterday - start + 1
    ensures saved == DatesFrom(start, |saved|)
    ensures FetchedCleanly(start, |saved|, fetch)
    ensures failed <==> |saved| < yesterday - start + 1
    ensures failed ==> fetch(start + |saved|).error.Some?
    ensures store.rows == Backfilled(old(store.rows), start, start + |saved| - 1, fetch)
    ensures !failed ==> messages == Progress(start, |saved|, yesterday - start + 1)
    ensures failed ==> messages == Progress(start, |saved| + 1, yesterday - start + 1) + [Failed(start + |saved|)]
  {
    ghost var before := store.rows;
    var current := start;
    var total := (yesterday - start) + 1;
    var processed := 0;
    messages, saved, failed := [], [], false;
    while current <= yesterday
      invariant start <= current <= yesterday + 1
      invariant processed == current - start == |saved|
      invariant saved == DatesFrom(start, processed)
      invariant FetchedCleanly(start, processed, fetch)
      invariant !failed
      invariant messages == Progress(start, processed, total)
      invariant store.rows == Backfilled(before, start, current - 1, fetch)
      decreases yesterday - current
    {
      messages := messages + [Syncing(current, processed + 1, total)];
      var ok := SyncOneDay(store, current, fetch, before, start);
      if !ok {
        messages := messages + [Failed(current)];
        failed := true;
        return;
      }
      saved := saved + [current];
      current := current + 1;
      processed := processed + 1;
    }
  }

  /** One date of the corrected sync: fetch it, and save its scored row only
      when the fetch reports no error. A store holding the backfill of
      `start..date - 1` then holds the backfill of `start..date`. */
  method SyncOneDay(store: Database.DailyStore, date: Date, fetch: Date -> DailyData,
                    ghost before: map<Date, Database.Row>, ghost start: Date)
    returns (ok: bool)
    modifies store
    ensures ok <==> fetch(date).error.None?
    ensures ok ==> store.rows == old(store.rows)[date := SyncedRow(fetch(date))]
    ensures !ok ==> store.rows == old(store.rows)
    ensures ok && start <= date && old(store.rows) == Backfilled(before, start, date - 1, fetch) ==>
      store.rows == Backfilled(before, start, date, fetch)
  {
    var data := fetch(date);
    if data.error.Some? {
      return false;
    }
    var points := CalculatePoints(Some(data.steps), data.activities);
    store.SaveDailyData(date, data.steps, points, data.activities);
    return true;
  }

}
