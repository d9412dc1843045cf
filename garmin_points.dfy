/** The older, stand-alone scoring script: its own step, activity and
    strength rules, the day total built from the provider's daily summary,
    and the day-by-day loop over a date range. The rules are kept exactly as
    this script writes them; where they differ from the scoring of the sync
    engine, the lemmas at the end say how. */
module GarminPoints {
  import opened Wrappers
  import opened Dates
  import opened Provider
  import Backend

  // ---------------------------------------------------------------------
  // Scoring rules
  // ---------------------------------------------------------------------

  /** Step points: the highest threshold reached wins, tiers do not add up. */
  function PointsFromSteps(steps: int): (p: int)
    ensures p == 0 || p == 3 || p == 5 || p == 8
  {
    if steps >= 12500 then 8
    else if steps >= 10000 then 5
    else if steps >= 7000 then 3
    else 0
  }

  /** More steps never earn fewer points. */
  lemma PointsFromStepsMonotone(fewer: int, more: int)
    requires fewer <= more
    ensures PointsFromSteps(fewer) <= PointsFromSteps(more)
  {
  }

  /** The script's step tiers are the sync engine's step tiers. */
  lemma StepRulesAgree(steps: int)
    ensures PointsFromSteps(steps) == Backend.StepTier(steps)
  {
  }

  /** Points for active time: 8 per whole 30 minutes above 110 bpm, 5 per
      whole 30 minutes from 90 to 110 bpm inclusive, nothing below 90 bpm.
      Python's `//` floors, as Dafny's `/` does for a positive divisor. */
  function PointsFromActivity(activeSeconds: int, avgHr: real): (p: int)
    ensures 0 <= activeSeconds ==> 0 <= p
    ensures 0 <= activeSeconds < 1800 ==> p == 0
    ensures avgHr < 90.0 ==> p == 0
  {
    var intervals := activeSeconds / 1800;
    if avgHr > 110.0 then intervals * 8
    else if 90.0 <= avgHr <= 110.0 then intervals * 5
    else 0
  }

  /** Points for strength time: 8 per whole 30 minutes, only above 105 bpm. */
  function PointsFromStrength(strengthSeconds: int, avgHr: real): (p: int)
    ensures 0 <= strengthSeconds ==> 0 <= p
    ensures 0 <= strengthSeconds < 1800 ==> p == 0
    ensures avgHr <= 105.0 ==> p == 0
    ensures avgHr > 105.0 ==> p == 8 * (strengthSeconds / 1800)
  {
    var intervals := strengthSeconds / 1800;
    if avgHr > 105.0 then intervals * 8 else 0
  }

  /** For a fixed heart rate, more active time never earns fewer points. */
  lemma PointsFromActivityMonotoneInTime(shorter: int, longer: int, avgHr: real)
    requires 0 <= shorter <= longer
    ensures PointsFromActivity(shorter, avgHr) <= PointsFromActivity(longer, avgHr)
  {
    assert shorter / 1800 <= longer / 1800;
  }

  /** For a fixed non-negative active time, a higher heart rate never earns
      fewer points: the rates 0, 5 and 8 only go up. */
  lemma PointsFromActivityMonotoneInRate(activeSeconds: int, lower: real, higher: real)
    requires 0 <= activeSeconds
    requires lower <= higher
    ensures PointsFromActivity(activeSeconds, lower) <= PointsFromActivity(activeSeconds, higher)
  {
    var intervals := activeSeconds / 1800;
    assert 0 <= intervals * 5 <= intervals * 8;
  }

  /** The rate boundaries: exactly 110 and exactly 90 bpm pay 5 per block,
      just above 110 pays 8, just below 90 pays nothing, and 1799 seconds is
      no block at all. */
  lemma ActivityBoundaries()
    ensures PointsFromActivity(1800, 110.0) == 5
    ensures PointsFromActivity(1800, 110.5) == 8
    ensures PointsFromActivity(1800, 90.0) == 5
    ensures PointsFromActivity(1800, 89.5) == 0
    ensures PointsFromActivity(1799, 150.0) == 0
    ensures PointsFromActivity(5400, 120.0) == 24
  {
  }

  /** 105 bpm exactly earns no strength points; just above it does. */
  lemma StrengthBoundaries()
    ensures PointsFromStrength(3600, 105.0) == 0
    ensures PointsFromStrength(3600, 105.5) == 16
    ensures PointsFromStrength(1799, 150.0) == 0
  {
  }

  /** For an activity that is not strength work, the script's activity rule
      and the sync engine's rule give the same points for the activity's own
      duration and heart rate. A zero heart rate earns nothing under both. */
  lemma CardioRulesAgree(a: Activity)
    requires a.averageHR.Some? && !Backend.IsStrength(a)
    ensures Backend.ActivityPoints(a) == PointsFromActivity(a.duration, a.averageHR.value)
  {
  }

  /** The two strength rules disagree: the sync engine pays 8 per block for
      any non-zero heart rate, the script only above 105 bpm. Every strength
      activity of at least one block at a heart rate in (0, 105] is scored
      higher by the sync engine. */
  lemma StrengthRulesDisagree(a: Activity)
    requires Backend.IsStrength(a)
    requires a.duration >= 1800
    requires a.averageHR.Some? && 0.0 < a.averageHR.value <= 105.0
    ensures PointsFromStrength(a.duration, a.averageHR.value) == 0
    ensures Backend.ActivityPoints(a) >= 8
  {
    assert a.duration / 1800 >= 1;
  }

  /** Above 105 bpm the two strength rules agree: both pay 8 per whole
      30 minutes of the activity's duration. With `StrengthRulesDisagree`,
      they differ exactly on heart rates in (0, 105] once a block is reached. */
  lemma StrengthRulesAgreeAbove105(a: Activity)
    requires Backend.IsStrength(a)
    requires a.averageHR.Some? && a.averageHR.value > 105.0
    ensures PointsFromStrength(a.duration, a.averageHR.value) == Backend.ActivityPoints(a)
  {
  }

  // ---------------------------------------------------------------------
  // fetch_points_by_date
  // ---------------------------------------------------------------------

  /** The daily summary `get_stats` returns, one field per key read.
      None stands for a missing key, which `stats.get(key, 0)` reads as 0. */
  datatype DayStats = DayStats(
    activeSeconds: Option<int>,
    highlyActiveSeconds: Option<int>,
    restingHeartRate: Option<real>)

  /** What the provider answers for one date: the two-day step history and
      the daily summary. */
  datatype GarminDay = GarminDay(stepHistory: seq<StepEntry>, stats: DayStats)

  /** The step points for `target`: those of the first history entry dated
      `target`, 0 when none is. None when that entry's total is null, which
      makes the comparison with 12500 raise. */
  function StepPointsFor(history: seq<StepEntry>, target: Date): (r: Option<int>)
    ensures FirstStepMatch(history, target) == |history| ==> r == Some(0)
    ensures FirstStepMatch(history, target) < |history| && history[FirstStepMatch(history, target)].totalSteps.Some? ==>
      r == Some(PointsFromSteps(history[FirstStepMatch(history, target)].totalSteps.value))
    ensures r.None? <==>
      (FirstStepMatch(history, target) < |history| && history[FirstStepMatch(history, target)].totalSteps.None?)
  {
    var i := FirstStepMatch(history, target);
    if i == |history| then Some(0)
    else match history[i].totalSteps
      case None => None
      case Some(steps) => Some(PointsFromSteps(steps))
  }

  /** The day total: step points, plus activity points for the active
      seconds, plus strength points for the highly active seconds, both at
      the resting heart rate. None when the step lookup raises. */
  function DayPoints(target: Date, day: GarminDay): (r: Option<int>)
    ensures r.None? <==> StepPointsFor(day.stepHistory, target).None?
  {
    match StepPointsFor(day.stepHistory, target)
    case None => None
    case Some(stepPoints) =>
      var hr := day.stats.restingHeartRate.GetOr(0.0);
      Some(stepPoints
        + PointsFromActivity(day.stats.activeSeconds.GetOr(0), hr)
        + PointsFromStrength(day.stats.highlyActiveSeconds.GetOr(0), hr))
  }

  /** With no history entry for the date and a summary without keys, the day
      scores nothing at all. */
  lemma EmptyDayScoresZero(target: Date, history: seq<StepEntry>)
    requires forall j :: 0 <= j < |history| ==> history[j].calendarDate != target
    ensures DayPoints(target, GarminDay(history, DayStats(None, None, None))) == Some(0)
  {
    assert FirstStepMatch(history, target) == |history|;
  }

  /** A day whose seconds are not negative never scores below zero, and with
      no history entry for the date its total is activity plus strength points. */
  lemma DayPointsNonNegative(target: Date, day: GarminDay)
    requires day.stats.activeSeconds.GetOr(0) >= 0 && day.stats.highlyActiveSeconds.GetOr(0) >= 0
    requires DayPoints(target, day).Some?
    ensures DayPoints(target, day).value >= 0
    ensures FirstStepMatch(day.stepHistory, target) == |day.stepHistory| ==>
      var hr := day.stats.restingHeartRate.GetOr(0.0);
      DayPoints(target, day).value ==
        PointsFromActivity(day.stats.activeSeconds.GetOr(0), hr)
        + PointsFromStrength(day.stats.highlyActiveSeconds.GetOr(0), hr)
  {
    var sp := StepPointsFor(day.stepHistory, target);
    assert sp.value >= 0;
  }

  /** `fetch_points_by_date` on the provider's answers: scan the step history
      for the first entry dated `target`, then add the summary's points. */
  method FetchPointsByDate(target: Date, day: GarminDay) returns (total: Option<int>)
    ensures total == DayPoints(target, day)
  {
    var stepPoints: Option<int> := Some(0);
    var i := 0;
    while i < |day.stepHistory|
      invariant 0 <= i <= |day.stepHistory|
      invariant i <= FirstStepMatch(day.stepHistory, target)
      invariant stepPoints == Some(0)
    {
      var entry := day.stepHistory[i];
      if entry.calendarDate == target {
        if entry.totalSteps.None? {
          stepPoints := None;
        } else {
          stepPoints := Some(PointsFromSteps(entry.totalSteps.value));
        }
        break;
      }
      i := i + 1;
    }
    if stepPoints.None? {
      return None;
    }
    var activeSeconds := day.stats.activeSeconds.GetOr(0);
    var highlyActiveSeconds := day.stats.highlyActiveSeconds.GetOr(0);
    var avgHr := day.stats.restingHeartRate.GetOr(0.0);
    var activityPoints := PointsFromActivity(activeSeconds, avgHr);
    var strengthPoints := PointsFromStrength(highlyActiveSeconds, avgHr);
    total := Some(stepPoints.value + activityPoints + strengthPoints);
  }

  // ---------------------------------------------------------------------
  // fetch_points_for_range
  // ---------------------------------------------------------------------

  /** The day totals for every date of `start..end`. None when the lookup for
      some date in the range raises, which abandons the whole range;
      otherwise one entry per date, and an empty map when start > end. */
  method FetchPointsForRange(start: Date, end: Date, provider: Date -> GarminDay)
    returns (result: Option<map<Date, int>>)
    ensures result.None? <==> exists d :: start <= d <= end && DayPoints(d, provider(d)).None?
    ensures result.Some? ==> result.value.Keys == DateRange(start, end)
    ensures result.Some? ==> forall d :: d in result.value ==> Some(result.value[d]) == DayPoints(d, provider(d))
  {
    var points: map<Date, int> := map[];
    var current := start;
    while current <= end
      invariant start <= current
      invariant current == start || current <= end + 1
      invariant forall d :: d in points <==> start <= d < current
      invariant forall d :: start <= d < current ==> DayPoints(d, provider(d)).Some?
      invariant forall d :: d in points ==> Some(points[d]) == DayPoints(d, provider(d))
      decreases end - current
    {
      var total := FetchPointsByDate(current, provider(current));
      if total.None? {
        return None;
      }
      points := points[current := total.value];
      current := current + 1;
    }
    assert forall d :: d in points <==> d in DateRange(start, end);
    result := Some(points);
  }
}
