/** The local `daily_stats` table: one row per date, `date` the primary key.
    The table is the map `rows`; the JSON text of the activities column is
    modelled as the activity list itself. */
module Database {
  import opened Wrappers
  import opened Dates
  import opened Provider

  /** The non-key columns of a `daily_stats` row. */
  datatype Row = Row(steps: int, points: int, activities: seq<Activity>)

  /** The largest of a non-empty set of dates (SQL `MAX(date)`). */
  ghost function MaxDate(dates: set<Date>): (m: Date)
    requires dates != {}
    ensures m in dates
    ensures forall d :: d in dates ==> d <= m
    decreases |dates|
  {
    SomeDateIn(dates);
    var x :| x in dates;
    var others := dates - {x};
    assert forall d :: d in dates ==> d == x || d in others;
    if others == {} then x
    else
      var rest := MaxDate(others);
      if x > rest then x else rest
  }

  /** The latest stored date, None for an empty table. */
  ghost function LatestDate(rows: map<Date, Row>): (r: Option<Date>)
    ensures r.None? <==> rows == map[]
    ensures r.Some? ==> r.value in rows && forall d :: d in rows ==> d <= r.value
  {
    if rows == map[] then None else Some(MaxDate(rows.Keys))
  }

  class DailyStore {
    var rows: map<Date, Row>

    /** A freshly created, empty table. */
    constructor ()
      ensures rows == map[]
    {
      rows := map[];
    }

    /** `INSERT OR REPLACE`: the row for `date` becomes exactly the given
        values, whatever was there before; every other date keeps its row. */
    method SaveDailyData(date: Date, steps: int, points: int, activities: seq<Activity>)
      modifies this
      ensures rows == old(rows)[date := Row(steps, points, activities)]
      ensures date in rows && rows[date] == Row(steps, points, activities)
      ensures forall d :: d != date ==> (d in rows <==> d in old(rows))
      ensures forall d :: d != date && d in old(rows) ==> rows[d] == old(rows)[d]
      ensures old(date in rows && rows[date] == Row(steps, points, activities)) ==> rows == old(rows)
    {
      rows := rows[date := Row(steps, points, activities)];
    }

    /** The row stored for `date`, None when that date was never saved. */
    method GetDataForDate(date: Date) returns (r: Option<Row>)
      ensures r.Some? <==> date in rows
      ensures r.Some? ==> r.value == rows[date]
    {
      if date in rows {
        r := Some(rows[date]);
      } else {
        r := None;
      }
    }

    /** Every stored row whose date lies in `start..end` inclusive; dates with no
        row are absent from the result, not zero-filled. */
    method GetDataRange(start: Date, end: Date) returns (result: map<Date, Row>)
      ensures forall d :: d in result <==> d in rows && start <= d <= end
      ensures forall d :: d in result ==> result[d] == rows[d]
      ensures start > end ==> result == map[]
    {
      var selected := set d | d in rows && start <= d <= end;
      result := map[];
      var pending := selected;
      while pending != {}
        invariant pending <= selected
        invariant forall d :: d in result <==> d in selected && d !in pending
        invariant forall d :: d in result ==> result[d] == rows[d]
        decreases |pending|
      {
        SomeDateIn(pending);
        var d :| d in pending;
        result := result[d := rows[d]];
        pending := pending - {d};
      }
    }

    /** `MAX(date)` over the table: None exactly when the table is empty. */
    method GetLatestDate() returns (latest: Option<Date>)
      ensures latest.None? <==> rows == map[]
      ensures latest.Some? ==> latest.value in rows && forall d :: d in rows ==> d <= latest.value
    {
      latest := None;
      var pending := rows.Keys;
      while pending != {}
        invariant pending <= rows.Keys
        invariant latest.None? <==> pending == rows.Keys
        invariant latest.Some? ==> latest.value in rows
        invariant forall d :: d in rows && d !in pending ==> latest.Some? && d <= latest.value
        decreases |pending|
      {
        SomeDateIn(pending);
        var k :| k in pending;
        if latest.None? || k > latest.value {
          latest := Some(k);
        }
        pending := pending - {k};
      }
    }
  }
}
