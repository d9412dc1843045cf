/** The front end's date helpers, its deterministic mock points loader, the
    class selection of the day circles and the week total the calendar page
    shows next to each week. Markup, styles and the page layout stay outside
    the model; a rendered circle is the data it is built from. */
module Frontend {
  import opened Dates
  import Text

  // ---------------------------------------------------------------------
  // mock_fetch_points_by_date
  // ---------------------------------------------------------------------

  /** The mock's base value for a weekday (Monday is 0): 9 at the weekend,
      6 on Monday, 8 on Wednesday and 4 on the other days. */
  function MockBase(weekday: int): (pts: int)
    ensures pts == 4 || pts == 6 || pts == 8 || pts == 9
    ensures pts == 9 <==> weekday == 5 || weekday == 6
    ensures pts == 6 <==> weekday == 0
    ensures pts == 8 <==> weekday == 2
  {
    if weekday == 5 || weekday == 6 then 9
    else if weekday == 0 then 6
    else if weekday == 2 then 8
    else 4
  }

  /** The mock value for date `d`, the `seed`-th date of the run: the base
      moved by -1, 0 or +1 according to the day of the month plus the seed,
      and never negative. */
  function MockPoint(d: Date, seed: int): (pts: int)
    ensures pts >= 0
    ensures MockBase(Weekday(d)) - 1 <= pts <= MockBase(Weekday(d)) + 1
  {
    var shifted := MockBase(Weekday(d)) + (DayOf(d) + seed) % 3 - 1;
    if shifted < 0 then 0 else shifted
  }

  /** The mock loader: one entry per date of `start..end`, the value of the
      `i`-th date being its mock point with seed `i`. */
  method MockFetchPointsByDate(start: Date, end: Date) returns (results: map<Date, int>)
    ensures results.Keys == DateRange(start, end)
    ensures |results| == if start <= end then end - start + 1 else 0
    ensures forall d :: d in results ==> results[d] == MockPoint(d, d - start)
  {
    results := map[];
    var d := start;
    var seed := 0;
    while d <= end
      invariant start <= d
      invariant d == start || d <= end + 1
      invariant seed == d - start
      invariant forall e :: e in results <==> start <= e < d
      invariant forall e :: e in results ==> results[e] == MockPoint(e, e - start)
      decreases end - d
    {
      results := results[d := MockPoint(d, seed)];
      d := d + 1;
      seed := seed + 1;
    }
    assert results.Keys == DateRange(start, end);
    DateRangeSize(start, end);
  }

  /** Every value the mock loader returns is a non-negative integer within
      one of its weekday's base value. */
  lemma MockValuesInRange(start: Date, end: Date, results: map<Date, int>, d: Date)
    requires results.Keys == DateRange(start, end)
    requires forall e :: e in results ==> results[e] == MockPoint(e, e - start)
    requires d in results
    ensures 0 <= results[d]
    ensures MockBase(Weekday(d)) - 1 <= results[d] <= MockBase(Weekday(d)) + 1
    ensures start <= d <= end
  {
  }

  // ---------------------------------------------------------------------
  // Date helpers
  // ---------------------------------------------------------------------

  /** The Monday and the Sunday of the week holding `d`. */
  function WeekDateRangeFor(d: Date): (week: (Date, Date))
    ensures Weekday(week.0) == 0
    ensures week.1 == week.0 + 6
    ensures week.0 <= d <= week.1
  {
    var monday := d - Weekday(d);
    (monday, monday + 6)
  }

  /** The week is unique: a Monday at most six days before `d` is the one
      `WeekDateRangeFor` picks. */
  lemma WeekIsUnique(d: Date, monday: Date)
    requires Weekday(monday) == 0 && monday <= d <= monday + 6
    ensures WeekDateRangeFor(d) == (monday, monday + 6)
  {
    var other := WeekDateRangeFor(d).0;
    assert (other + 3) % 7 == 0 && (monday + 3) % 7 == 0;
    assert -6 <= other - monday <= 6;
    assert (other - monday) % 7 == 0;
  }

  /** Every day of a week maps back to that same week. */
  lemma WeekDaysShareWeek(d: Date, e: Date)
    requires WeekDateRangeFor(d).0 <= e <= WeekDateRangeFor(d).1
    ensures WeekDateRangeFor(e) == WeekDateRangeFor(d)
  {
    WeekIsUnique(e, WeekDateRangeFor(d).0);
  }

  /** A day strictly after today: today itself is not in the future, and
      tomorrow is. */
  predicate IsFuture(d: Date, today: Date): (future: bool)
    ensures future ==> d != today
    ensures d == today + 1 ==> future
  {
    d > today
  }

  /** A (year, month) pair as one number, counting months. */
  function MonthIndex(year: int, month: int): int {
    year * 12 + (month - 1)
  }

  /** The (year, month) pair of a month number. */
  function MonthAt(index: int): (ym: (int, int))
    ensures 1 <= ym.1 <= 12
    ensures MonthIndex(ym.0, ym.1) == index
  {
    (index / 12, index % 12 + 1)
  }

  /** The loop condition of `months_since`: (year, month) is not after the end month. */
  predicate NotAfter(year: int, month: int, endYear: int, endMonth: int) {
    year < endYear || (year == endYear && month <= endMonth)
  }

  /** Every (year, month) pair from the start month through the month of
      `end`, in order. For a start month in 1..12 these are the consecutive
      month numbers from the start through the end month; the list is empty
      exactly when the start comes after the end month. */
  method MonthsSince(startYear: int, startMonth: int, end: Date) returns (months: seq<(int, int)>)
    ensures months == [] <==> !NotAfter(startYear, startMonth, YearOf(end), MonthOf(end))
    ensures 1 <= startMonth <= 12 && NotAfter(startYear, startMonth, YearOf(end), MonthOf(end)) ==>
      |months| == MonthIndex(YearOf(end), MonthOf(end)) - MonthIndex(startYear, startMonth) + 1
    ensures 1 <= startMonth <= 12 ==>
      forall i :: 0 <= i < |months| ==> months[i] == MonthAt(MonthIndex(startYear, startMonth) + i)
  {
    var endYear := YearOf(end);
    var endMonth := MonthOf(end);
    ghost var first := MonthIndex(startYear, startMonth);
    months := [];
    var year := startYear;
    var month := startMonth;
    while NotAfter(year, month, endYear, endMonth)
      invariant months == [] ==> year == startYear && month == startMonth
      invariant !NotAfter(startYear, startMonth, endYear, endMonth) ==> months == []
      invariant 1 <= startMonth <= 12 ==> 1 <= month <= 12
      invariant 1 <= startMonth <= 12 ==> MonthIndex(year, month) == first + |months|
      invariant 1 <= startMonth <= 12 && NotAfter(startYear, startMonth, endYear, endMonth) ==>
        MonthIndex(year, month) <= MonthIndex(endYear, endMonth) + 1
      invariant 1 <= startMonth <= 12 ==>
        forall i :: 0 <= i < |months| ==> months[i] == MonthAt(first + i)
      decreases endYear - year, 13 - month
    {
      months := months + [(year, month)];
      month := month + 1;
      if month > 12 {
        month := 1;
        year := year + 1;
      }
    }
  }

  // ---------------------------------------------------------------------
  // Day circles
  // ---------------------------------------------------------------------

  /** The class list of a circle, built the way both render helpers build
      it: the base class, then "future", "outer-green" and "inner-green" as
      their conditions hold. A future day gets no green class; a day that is
      not future is green outside at 8 points and inside at a week total of 40. */
  method CircleClasses(base: string, day: Date, today: Date, points: int, weekTotal: int)
    returns (classes: seq<string>)
    ensures |classes| >= 1 && classes[0] == base
    ensures IsFuture(day, today) ==> classes == [base, "future"]
    ensures !IsFuture(day, today) ==> "future" !in classes[1..]
    ensures "outer-green" in classes[1..] <==> points >= 8 && !IsFuture(day, today)
    ensures "inner-green" in classes[1..] <==> weekTotal >= 40 && !IsFuture(day, today)
    ensures |classes| == 1 + (if IsFuture(day, today) then 1 else 0)
      + (if points >= 8 && !IsFuture(day, today) then 1 else 0)
      + (if weekTotal >= 40 && !IsFuture(day, today) then 1 else 0)
  {
    classes := [base];
    if IsFuture(day, today) {
      classes := classes + ["future"];
    }
    if points >= 8 && !IsFuture(day, today) {
      classes := classes + ["outer-green"];
    }
    if weekTotal >= 40 && !IsFuture(day, today) {
      classes := classes + ["inner-green"];
    }
    assert "outer-green"[0] != "inner-green"[0] && "future"[0] != "inner-green"[0];
    assert classes[1..] ==
      (if IsFuture(day, today) then ["future"] else [])
      + (if points >= 8 && !IsFuture(day, today) then ["outer-green"] else [])
      + (if weekTotal >= 40 && !IsFuture(day, today) then ["inner-green"] else []);
  }

  /** The first three letters of the English weekday names, Monday first. */
  const WeekdayAbbreviations: seq<string> := ["Mon", "Tue", "Wed", "Thu", "Fri", "Sat", "Sun"]

  /** What a day circle on the home page shows. */
  datatype DayCircle = DayCircle(classes: seq<string>, dayLabel: string, pointsText: string)

  /** What a mini circle on the calendar page shows. */
  datatype MiniCircle = MiniCircle(classes: seq<string>, content: string)

  /** The home page's day circle: its classes, its weekday label and its points. */
  method RenderDayCircle(day: Date, today: Date, points: int, weekTotal: int) returns (circle: DayCircle)
    ensures |circle.classes| >= 1 && circle.classes[0] == "circle"
    ensures "outer-green" in circle.classes[1..] <==> points >= 8 && !IsFuture(day, today)
    ensures "inner-green" in circle.classes[1..] <==> weekTotal >= 40 && !IsFuture(day, today)
    ensures |circle.classes| == 1 + (if IsFuture(day, today) then 1 else 0)
      + (if points >= 8 && !IsFuture(day, today) then 1 else 0)
      + (if weekTotal >= 40 && !IsFuture(day, today) then 1 else 0)
    ensures IsFuture(day, today) ==> circle.classes == ["circle", "future"]
    ensures circle.dayLabel == WeekdayAbbreviations[Weekday(day)] && |circle.dayLabel| == 3
    ensures circle.pointsText == Text.DecimalString(points)
  {
    var classes := CircleClasses("circle", day, today, points, weekTotal);
    circle := DayCircle(classes, WeekdayAbbreviations[Weekday(day)], Text.DecimalString(points));
  }

  /** The calendar's mini circle: the same classes, and the points shown only
      for a day that is not in the future. */
  method RenderMiniCircle(day: Date, today: Date, points: int, weekTotal: int) returns (circle: MiniCircle)
    ensures |circle.classes| >= 1 && circle.classes[0] == "mini-circle"
    ensures "outer-green" in circle.classes[1..] <==> points >= 8 && !IsFuture(day, today)
    ensures "inner-green" in circle.classes[1..] <==> weekTotal >= 40 && !IsFuture(day, today)
    ensures |circle.classes| == 1 + (if IsFuture(day, today) then 1 else 0)
      + (if points >= 8 && !IsFuture(day, today) then 1 else 0)
      + (if weekTotal >= 40 && !IsFuture(day, today) then 1 else 0)
    ensures IsFuture(day, today) ==> circle.classes == ["mini-circle", "future"]
    ensures circle.content == [] <==> IsFuture(day, today)
    ensures !IsFuture(day, today) ==> circle.content == Text.DecimalString(points)
  {
    var classes := CircleClasses("mini-circle", day, today, points, weekTotal);
    var content := if !IsFuture(day, today) then Text.DecimalString(points) else "";
    circle := MiniCircle(classes, content);
  }

  // ---------------------------------------------------------------------
  // The calendar's week total
  // ---------------------------------------------------------------------

  /** The points of one calendar-grid day toward its week's total: its
      stored points (0 when none are stored) when it lies in the displayed
      month and is not after today, 0 otherwise. Only the month number is
      compared, not the year. */
  function CountedPoints(d: Date, month: int, today: Date, pointsMap: map<Date, int>): (p: int)
    ensures p != 0 ==> MonthOf(d) == month && !IsFuture(d, today) && d in pointsMap && p == pointsMap[d]
    ensures MonthOf(d) == month && !IsFuture(d, today) ==> p == StoredPoints(d, pointsMap)
  {
    if MonthOf(d) == month && d <= today then StoredPoints(d, pointsMap)
    else 0
  }

  /** `points_map.get(d, 0)`: the stored points of a day, 0 when none are stored. */
  function StoredPoints(d: Date, pointsMap: map<Date, int>): int {
    if d in pointsMap then pointsMap[d] else 0
  }

  /** The week total a calendar week shows: the counted points of its days, in order. */
  function CalendarWeekTotal(week: seq<Date>, month: int, today: Date, pointsMap: map<Date, int>): (total: int)
    ensures (forall i :: 0 <= i < |week| ==> MonthOf(week[i]) != month || IsFuture(week[i], today)) ==> total == 0
  {
    if week == [] then 0
    else
      var rest := CalendarWeekTotal(week[..|week| - 1], month, today, pointsMap);
      rest + CountedPoints(week[|week| - 1], month, today, pointsMap)
  }

  /** A one-day run totals that day's counted points: its stored points (0
      when none are stored) when it is in the displayed month and not after
      today. With `CalendarWeekTotalAppend` this fixes the total of any week. */
  lemma CalendarWeekTotalSingleDay(d: Date, month: int, today: Date, pointsMap: map<Date, int>)
    ensures CalendarWeekTotal([d], month, today, pointsMap) == CountedPoints(d, month, today, pointsMap)
    ensures MonthOf(d) == month && d <= today ==>
      CalendarWeekTotal([d], month, today, pointsMap) == StoredPoints(d, pointsMap)
  {
    assert [d][..0] == [];
  }

  /** The total of two runs of days is the sum of their totals. */
  lemma {:induction false} CalendarWeekTotalAppend(first: seq<Date>, second: seq<Date>, month: int, today: Date, pointsMap: map<Date, int>)
    ensures CalendarWeekTotal(first + second, month, today, pointsMap)
         == CalendarWeekTotal(first, month, today, pointsMap) + CalendarWeekTotal(second, month, today, pointsMap)
    decreases |second|
  {
    if second == [] {
      assert first + second == first;
    } else {
      var last := |second| - 1;
      assert (first + second)[..|first + second| - 1] == first + second[..last];
      CalendarWeekTotalAppend(first, second[..last], month, today, pointsMap);
    }
  }

  /** Only the stored points of counted days matter: two stores that give
      the same points (a missing day reading as 0) to every day of the week
      that is in the month and not after today give the same total, whatever
      they hold for future days, days of other months or days outside the
      week. */
  lemma {:induction false} CalendarWeekTotalIgnoresOtherDays(week: seq<Date>, month: int, today: Date, pointsMap: map<Date, int>, other: map<Date, int>)
    requires forall i :: 0 <= i < |week| && MonthOf(week[i]) == month && week[i] <= today ==>
      StoredPoints(week[i], pointsMap) == StoredPoints(week[i], other)
    ensures CalendarWeekTotal(week, month, today, pointsMap) == CalendarWeekTotal(week, month, today, other)
    decreases |week|
  {
    if week != [] {
      var n := |week| - 1;
      assert forall i :: 0 <= i < n ==> week[..n][i] == week[i];
      CalendarWeekTotalIgnoresOtherDays(week[..n], month, today, pointsMap, other);
    }
  }

  /** A day missing from the store counts exactly as a day stored with 0 points. */
  lemma MissingDayCountsZero(week: seq<Date>, month: int, today: Date, pointsMap: map<Date, int>, d: Date)
    requires d !in pointsMap
    ensures CalendarWeekTotal(week, month, today, pointsMap) == CalendarWeekTotal(week, month, today, pointsMap[d := 0])
  {
    CalendarWeekTotalIgnoresOtherDays(week, month, today, pointsMap, pointsMap[d := 0]);
  }

  /** With non-negative stored points the total is non-negative, and it is at
      least the counted points of any one day of the week. */
  lemma {:induction false} CalendarWeekTotalBounds(week: seq<Date>, month: int, today: Date, pointsMap: map<Date, int>, i: int)
    requires forall d :: d in pointsMap ==> pointsMap[d] >= 0
    requires 0 <= i < |week|
    ensures CalendarWeekTotal(week, month, today, pointsMap) >= CountedPoints(week[i], month, today, pointsMap) >= 0
    decreases |week|
  {
    var n := |week| - 1;
    CalendarWeekTotalNonNegative(week[..n], month, today, pointsMap);
    if i < n {
      CalendarWeekTotalBounds(week[..n], month, today, pointsMap, i);
    }
  }

  lemma {:induction false} CalendarWeekTotalNonNegative(week: seq<Date>, month: int, today: Date, pointsMap: map<Date, int>)
    requires forall d :: d in pointsMap ==> pointsMap[d] >= 0
    ensures CalendarWeekTotal(week, month, today, pointsMap) >= 0
    decreases |week|
  {
    if week != [] {
      CalendarWeekTotalNonNegative(week[..|week| - 1], month, today, pointsMap);
    }
  }
}
