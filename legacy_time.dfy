/** The time record of the older 12-hour variant (root package): the same
    validation as the 24-hour converter's record as written, hours 0..12. */
module LegacyTime {

  import opened Wrappers
  import opened Errors

  datatype Time = Time(hour: int, minute: int)

  /** The record constructor: hour checked first (0..12), then minute (0..59). */
  function Make(hour: int, minute: int): (r: Result<Time, Error>)
    ensures r.Success? <==> 0 <= hour <= 12 && 0 <= minute <= 59
    ensures r.Success? ==> r.value.hour == hour && r.value.minute == minute
    ensures (hour < 0 || hour > 12) ==> r == Failure(InvalidTimeHour(hour))
    ensures 0 <= hour <= 12 && (minute < 0 || minute > 59) ==> r == Failure(InvalidTimeMinute(minute))
  {
    if hour < 0 || hour > 12 then Failure(InvalidTimeHour(hour))
    else if minute < 0 || minute > 59 then Failure(InvalidTimeMinute(minute))
    else Success(Time(hour, minute))
  }

  /** The values the record's tests accept and refuse. */
  lemma MakeExamples()
    ensures forall h :: h in {-1, 13, -20, 24, 100} ==> Make(h, 30) == Failure(InvalidTimeHour(h))
    ensures forall m :: m in {-1, 60, -20, 61, 120} ==> Make(10, m) == Failure(InvalidTimeMinute(m))
    ensures Make(12, 59) == Success(Time(12, 59)) && Make(0, 0) == Success(Time(0, 0))
    ensures Make(12, 0) == Success(Time(12, 0)) && Make(10, 30) == Success(Time(10, 30))
  {
  }

  /** Equality of records is equality of both fields. */
  lemma StructuralEquality(a: Time, b: Time)
    ensures a == b <==> a.hour == b.hour && a.minute == b.minute
  {
  }
}
