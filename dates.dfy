/** Calendar dates as day numbers, and the civil (year, month, day) view of them.

    A `Date` counts days from 1970-01-01 (day 0), so `d + 1` is the next
    day, `d - 1` the previous one, and `<` on dates is `<` on integers,
    exactly as Python's `date` arithmetic with `timedelta(days=1)` behaves. */
module Dates {
  import Text

  type Date = int

  /** Python's `date.weekday()`: Monday is 0 and Sunday is 6; 1970-01-01 was a Thursday. */
  function Weekday(d: Date): (w: int)
    ensures 0 <= w < 7
  {
    (d + 3) % 7
  }

  predicate IsLeapYear(y: int) {
    y % 4 == 0 && (y % 100 != 0 || y % 400 == 0)
  }

  function DaysInYear(y: int): int {
    if IsLeapYear(y) then 366 else 365
  }

  function DaysInMonth(y: int, m: int): (n: int)
    ensures 28 <= n <= 31
  {
    if m == 2 then (if IsLeapYear(y) then 29 else 28)
    else if m == 4 || m == 6 || m == 9 || m == 11 then 30
    else 31
  }

  /** Days in months `m` through December of year `y`. */
  function DaysFromMonth(y: int, m: int): (n: int)
    requires 1 <= m <= 12
    ensures DaysInMonth(y, m) <= n
    decreases 12 - m
  {
    if m == 12 then DaysInMonth(y, 12) else DaysInMonth(y, m) + DaysFromMonth(y, m + 1)
  }

  lemma MonthsFillYear(y: int)
    ensures DaysFromMonth(y, 1) == DaysInYear(y)
  {
  }

  datatype Civil = Civil(year: int, month: int, day: int)

  predicate ValidCivil(c: Civil) {
    1 <= c.month <= 12 && 1 <= c.day <= DaysInMonth(c.year, c.month)
  }

  /** Days from 0001-01-01 (Python ordinal 1) to 1970-01-01. */
  const DaysBeforeUnixEpoch: int := 719162

  /** Days in one 400-year Gregorian cycle. */
  const DaysPerEra: int := 146097

  /** Walks whole years forward from year `y` while `rem` days remain beyond them. */
  function YearWalk(y: int, rem: nat): (r: (int, nat))
    ensures r.1 < DaysInYear(r.0)
    decreases rem
  {
    if rem < DaysInYear(y) then (y, rem) else YearWalk(y + 1, rem - DaysInYear(y))
  }

  /** Walks whole months forward from month `m` of year `y`; gives (month, day of month). */
  function MonthWalk(y: int, m: int, rem: nat): (r: (int, int))
    requires 1 <= m <= 12
    requires rem < DaysFromMonth(y, m)
    ensures m <= r.0 <= 12
    ensures 1 <= r.1 <= DaysInMonth(y, r.0)
    decreases 12 - m
  {
    if rem < DaysInMonth(y, m) then (m, rem + 1)
    else MonthWalk(y, m + 1, rem - DaysInMonth(y, m))
  }

  /** The proleptic Gregorian date of a day number (Python's `date.year/.month/.day`). */
  function ToCivil(d: Date): (c: Civil)
    ensures ValidCivil(c)
  {
    var z := d + DaysBeforeUnixEpoch;
    var era := z / DaysPerEra;
    var yearAndRest := YearWalk(1 + 400 * era, z % DaysPerEra);
    MonthsFillYear(yearAndRest.0);
    var monthAndDay := MonthWalk(yearAndRest.0, 1, yearAndRest.1);
    Civil(yearAndRest.0, monthAndDay.0, monthAndDay.1)
  }

  // ---------------------------------------------------------------------
  // The closed-form day count, and the round trips with ToCivil
  // ---------------------------------------------------------------------

  /** Days from 0001-01-01 to January 1st of year `y`, counting a leap day
      for every fourth year except centuries not divisible by 400. */
  function DaysBeforeYear(y: int): int {
    365 * (y - 1) + (y - 1) / 4 - (y - 1) / 100 + (y - 1) / 400
  }

  /** Days from January 1st of year `y` to the first day of month `m`. */
  function DaysBeforeMonth(y: int, m: int): int
    requires 1 <= m <= 12
  {
    if m == 1 then 0 else DaysBeforeMonth(y, m - 1) + DaysInMonth(y, m - 1)
  }

  /** The day number of a (year, month, day) date: the reference count
      against which `ToCivil` is checked. */
  function FromCivil(c: Civil): Date
    requires 1 <= c.month <= 12
  {
    DaysBeforeYear(c.year) + DaysBeforeMonth(c.year, c.month) + c.day - 1 - DaysBeforeUnixEpoch
  }

  lemma DaysBeforeYearStep(y: int)
    ensures DaysBeforeYear(y + 1) == DaysBeforeYear(y) + DaysInYear(y)
  {
    assert y / 4 - (y - 1) / 4 == if y % 4 == 0 then 1 else 0;
    assert y / 100 - (y - 1) / 100 == if y % 100 == 0 then 1 else 0;
    assert y / 400 - (y - 1) / 400 == if y % 400 == 0 then 1 else 0;
  }

  lemma EraStart(era: int)
    ensures DaysBeforeYear(1 + 400 * era) == DaysPerEra * era
  {
    assert (400 * era) / 4 == 100 * era;
    assert (400 * era) / 100 == 4 * era;
    assert (400 * era) / 400 == era;
  }

  lemma {:induction false} YearWalkSum(y: int, rem: nat)
    ensures DaysBeforeYear(YearWalk(y, rem).0) + YearWalk(y, rem).1 == DaysBeforeYear(y) + rem
    decreases rem
  {
    if rem >= DaysInYear(y) {
      DaysBeforeYearStep(y);
      YearWalkSum(y + 1, rem - DaysInYear(y));
    }
  }

  lemma {:induction false} MonthWalkSum(y: int, m: int, rem: nat)
    requires 1 <= m <= 12
    requires rem < DaysFromMonth(y, m)
    ensures DaysBeforeMonth(y, MonthWalk(y, m, rem).0) + MonthWalk(y, m, rem).1 - 1 == DaysBeforeMonth(y, m) + rem
    decreases 12 - m
  {
    if rem >= DaysInMonth(y, m) {
      MonthWalkSum(y, m + 1, rem - DaysInMonth(y, m));
    }
  }

  /** `ToCivil` inverts the closed-form count: every day number is the count
      of its own calendar date. */
  lemma FromCivilOfToCivil(d: Date)
    ensures FromCivil(ToCivil(d)) == d
  {
    var z := d + DaysBeforeUnixEpoch;
    var era, rem := z / DaysPerEra, z % DaysPerEra;
    assert z == DaysPerEra * era + rem;
    EraStart(era);
    YearWalkSum(1 + 400 * era, rem);
    var yr := YearWalk(1 + 400 * era, rem);
    MonthsFillYear(yr.0);
    MonthWalkSum(yr.0, 1, yr.1);
    var md := MonthWalk(yr.0, 1, yr.1);
    assert ToCivil(d) == Civil(yr.0, md.0, md.1);
  }

  lemma {:induction false} MonthsFillRestOfYear(y: int, m: int)
    requires 1 <= m <= 12
    ensures DaysBeforeMonth(y, m) + DaysFromMonth(y, m) == DaysInYear(y)
    decreases m
  {
    if m == 1 {
      MonthsFillYear(y);
    } else {
      MonthsFillRestOfYear(y, m - 1);
    }
  }

  lemma {:induction false} DaysBeforeYearGrows(y1: int, y2: int)
    requires y1 < y2
    ensures DaysBeforeYear(y1) + DaysInYear(y1) <= DaysBeforeYear(y2)
    decreases y2 - y1
  {
    DaysBeforeYearStep(y1);
    if y1 + 1 < y2 {
      DaysBeforeYearGrows(y1 + 1, y2);
      DaysBeforeYearStep(y1 + 1);
    }
  }

  lemma {:induction false} DaysBeforeMonthGrows(y: int, m1: int, m2: int)
    requires 1 <= m1 < m2 <= 12
    ensures DaysBeforeMonth(y, m1) + DaysInMonth(y, m1) <= DaysBeforeMonth(y, m2)
    decreases m2 - m1
  {
    if m1 + 1 < m2 {
      DaysBeforeMonthGrows(y, m1 + 1, m2);
    }
  }

  /** A valid date's offset into its year is less than the year's length. */
  lemma DayOfYearInRange(c: Civil)
    requires ValidCivil(c)
    ensures 0 <= DaysBeforeMonth(c.year, c.month) + c.day - 1 < DaysInYear(c.year)
  {
    MonthsFillRestOfYear(c.year, c.month);
    assert DaysBeforeMonth(c.year, c.month) >= 0 by {
      if c.month > 1 {
        DaysBeforeMonthGrows(c.year, 1, c.month);
      }
    }
  }

  /** Distinct valid calendar dates have distinct day numbers. */
  lemma FromCivilInjective(a: Civil, b: Civil)
    requires ValidCivil(a) && ValidCivil(b)
    requires FromCivil(a) == FromCivil(b)
    ensures a == b
  {
    DayOfYearInRange(a);
    DayOfYearInRange(b);
    if a.year < b.year {
      DaysBeforeYearGrows(a.year, b.year);
    } else if b.year < a.year {
      DaysBeforeYearGrows(b.year, a.year);
    }
    assert a.year == b.year;
    if a.month < b.month {
      DaysBeforeMonthGrows(a.year, a.month, b.month);
    } else if b.month < a.month {
      DaysBeforeMonthGrows(a.year, b.month, a.month);
    }
  }

  /** Every valid calendar date is the `ToCivil` of its own day number. */
  lemma ToCivilOfFromCivil(c: Civil)
    requires ValidCivil(c)
    ensures ToCivil(FromCivil(c)) == c
  {
    FromCivilOfToCivil(FromCivil(c));
    FromCivilInjective(ToCivil(FromCivil(c)), c);
  }

  /** The count agrees with the calendar at the two dates the tracker relies on. */
  lemma FromCivilLandmarks()
    ensures FromCivil(Civil(1970, 1, 1)) == 0
    ensures FromCivil(Civil(2025, 2, 1)) == TrackingEpoch
  {
  }

  /** Distinct day numbers have distinct calendar dates. */
  lemma ToCivilInjective(d: Date, e: Date)
    requires ToCivil(d) == ToCivil(e)
    ensures d == e
  {
    FromCivilOfToCivil(d);
    FromCivilOfToCivil(e);
  }

  /** Python's `date.year`. */
  function YearOf(d: Date): int { ToCivil(d).year }

  /** The year of `d` is the year whose January 1st is on or before `d` and
      whose successor's January 1st is after it. */
  lemma YearOfContainsDay(d: Date)
    ensures FromCivil(Civil(YearOf(d), 1, 1)) <= d < FromCivil(Civil(YearOf(d) + 1, 1, 1))
  {
    FromCivilOfToCivil(d);
    DayOfYearInRange(ToCivil(d));
    DaysBeforeYearStep(ToCivil(d).year);
  }

  function MonthOf(d: Date): (m: int)
    ensures 1 <= m <= 12
  {
    ToCivil(d).month
  }

  function DayOf(d: Date): (n: int)
    ensures 1 <= n <= 31
  {
    ToCivil(d).day
  }

  /** Python's `str(date)`: "YYYY-MM-DD" (years 1..9999 are the ones Python represents). */
  function IsoDate(d: Date): (s: string)
    ensures |s| == 10 && s[4] == '-' && s[7] == '-'
  {
    var c := ToCivil(d);
    Text.Padded(if c.year < 0 then 0 else c.year, 4) + "-" + Text.Padded(c.month, 2) + "-" + Text.Padded(c.day, 2)
  }

  /** For years 0 through 9999 the three fields of the ISO string read back
      as the year, month and day of the date. */
  lemma IsoDateSpellsDate(d: Date)
    requires 0 <= YearOf(d) <= 9999
    ensures Text.DigitsValue(IsoDate(d)[..4]) == YearOf(d)
    ensures Text.DigitsValue(IsoDate(d)[5..7]) == MonthOf(d)
    ensures Text.DigitsValue(IsoDate(d)[8..]) == DayOf(d)
  {
    var c := ToCivil(d);
    var four, two := 4, 2;
    assert Text.Pow10(four) == 10000 && Text.Pow10(two) == 100;
    Text.PaddedValue(c.year, four);
    Text.PaddedValue(c.month, two);
    Text.PaddedValue(c.day, two);
    IsoFieldSlices(Text.Padded(c.year, four), Text.Padded(c.month, two), Text.Padded(c.day, two));
  }

  lemma IsoFieldSlices(y: string, m: string, dd: string)
    requires |y| == 4 && |m| == 2 && |dd| == 2
    ensures var s := y + "-" + m + "-" + dd; s[..4] == y && s[5..7] == m && s[8..] == dd
  {
  }

  /** For years 0 through 9999 distinct dates have distinct ISO strings, so
      keying rows by day number keys them exactly as by `str(date)`. */
  lemma IsoDateInjective(d: Date, e: Date)
    requires 0 <= YearOf(d) <= 9999 && 0 <= YearOf(e) <= 9999
    requires IsoDate(d) == IsoDate(e)
    ensures d == e
  {
    IsoDateSpellsDate(d);
    IsoDateSpellsDate(e);
    assert ToCivil(d) == ToCivil(e);
    ToCivilInjective(d, e);
  }

  /** The dates `start` through `end`, both included (empty when `start > end`). */
  function DateRange(start: Date, end: Date): (r: set<Date>)
    ensures forall d :: d in r <==> start <= d <= end
    decreases end - start
  {
    if start > end then {} else DateRange(start, end - 1) + {end}
  }

  lemma {:induction false} DateRangeSize(start: Date, end: Date)
    ensures |DateRange(start, end)| == if start <= end then end - start + 1 else 0
    decreases end - start
  {
    if start <= end {
      DateRangeSize(start, end - 1);
      assert DateRange(start, end) == DateRange(start, end - 1) + {end};
    } else {
      assert DateRange(start, end) == {};
    }
  }

  /** A non-empty set of dates has a member to pick. */
  lemma SomeDateIn(dates: set<Date>)
    requires dates != {}
    ensures exists d :: d in dates
  {
    if forall d :: d !in dates {
      // Naming the comparison with the empty set lets the solver apply set
      // extensionality, which contradicts `dates != {}`.
      ghost var empty := dates == {};
      assert false;
    }
  }

  /** `datetime.date(2025, 2, 1)`, the first day the tracker synchronises. */
  const TrackingEpoch: Date := 20120

  lemma TrackingEpochIsFebruaryFirst2025()
    ensures ToCivil(TrackingEpoch) == Civil(2025, 2, 1)
  {
    // Day 20120 is day 8797 (0-based) of the 400-year era that starts on 2001-01-01;
    // 2001 through 2024 hold 8766 of those days, leaving day 31 (0-based) of 2025.
    assert (TrackingEpoch + DaysBeforeUnixEpoch) / DaysPerEra == 5;
    assert (TrackingEpoch + DaysBeforeUnixEpoch) % DaysPerEra == 8797;
    YearWalkChunk0();
    YearWalkChunk1();
    YearWalkChunk2();
    YearWalkChunk3();
    YearWalkChunk4();
    YearWalkChunk5();
    assert YearWalk(2001, 8797) == (2025, 31);
    DayThirtyTwoIsFebruaryFirst();
  }

  lemma DayThirtyTwoIsFebruaryFirst()
    ensures MonthWalk(2025, 1, 31) == (2, 1)
  {
  }

  /** 2025-02-01 was a Saturday. */
  lemma TrackingEpochIsSaturday()
    ensures Weekday(TrackingEpoch) == 5
  {
  }

  lemma YearWalkChunk0()
    ensures YearWalk(2001, 8797) == YearWalk(2005, 7336)
  {
  }

  lemma YearWalkChunk1()
    ensures YearWalk(2005, 7336) == YearWalk(2009, 5875)
  {
  }

  lemma YearWalkChunk2()
    ensures YearWalk(2009, 5875) == YearWalk(2013, 4414)
  {
  }

  lemma YearWalkChunk3()
    ensures YearWalk(2013, 4414) == YearWalk(2017, 2953)
  {
  }

  lemma YearWalkChunk4()
    ensures YearWalk(2017, 2953) == YearWalk(2021, 1492)
  {
  }

  lemma YearWalkChunk5()
    ensures YearWalk(2021, 1492) == YearWalk(2025, 31)
  {
  }
}
