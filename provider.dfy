/** The records the remote fitness provider hands to the core, after Python's
    `dict.get` defaults are applied. The provider itself (its network calls,
    authentication and error behaviour) stays outside the model: every call
    into it becomes an input value. */
module Provider {
  import opened Wrappers
  import opened Dates

  /** One entry of the recent-activities listing. A missing
      `activityType.typeKey` or `startTimeLocal` reads as "", a missing
      `duration` as 0 seconds; `averageHR` is None when the key is missing or
      null. */
  datatype Activity = Activity(
    typeKey: string,
    startTimeLocal: string,
    duration: nat,
    averageHR: Option<real>)

  /** One entry of the daily step history; the provider may report a null total. */
  datatype StepEntry = StepEntry(calendarDate: Date, totalSteps: Option<int>)

  /** The position of the first entry of `history` dated `date`, or
      `|history|` when no entry has that date. */
  function FirstStepMatch(history: seq<StepEntry>, date: Date): (i: nat)
    ensures i <= |history|
    ensures forall j :: 0 <= j < i ==> history[j].calendarDate != date
    ensures i < |history| ==> history[i].calendarDate == date
  {
    if history == [] then 0
    else if history[0].calendarDate == date then 0
    else 1 + FirstStepMatch(history[1..], date)
  }
}
