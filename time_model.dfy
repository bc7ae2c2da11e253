/** The validated time record of the 24-hour converter (package `model`). */
module TimeModel {

  import opened Wrappers
  import opened Errors

  /** An hour and a minute. The record's constructor is `Make`; a value built
      directly is a raw pair that the formatting rules also accept. */
  datatype Time = Time(hour: int, minute: int) {

    predicate IsExactHour() {
      minute == 0
    }

    predicate IsNoon() {
      hour == 12
    }

    predicate IsMidnight() {
      hour == 0
    }
  }

  /** The record constructor as written: the hour must lie in 0..12 and is
      checked before the minute, which must lie in 0..59. */
  function Make(hour: int, minute: int): (r: Result<Time, Error>)
    ensures r.Success? <==> 0 <= hour <= 12 && 0 <= minute <= 59
    ensures r.Success? ==> r.value.hour == hour && r.value.minute == minute
    ensures (hour < 0 || hour > 12) ==> r == Failure(InvalidTimeHour(hour))
    ensures 0 <= hour <= 12 && (minute < 0 || minute > 59) ==> r == Failure(InvalidTimeMinute(minute))
  {
    if hour < 0 || hour > 12 then Failure(InvalidTimeHour(hour))
    else if minute < 0 || minute > 59 then Failure(InvalidTimeMinute(minute))
    else Success(Time(hour, minute))
  }

  /** The constructor with the full-day hour range 0..23 that the vocabulary,
      the "to" rule and the converter's tests are written for. */
  function MakeFullDay(hour: int, minute: int): (r: Result<Time, Error>)
    ensures r.Success? <==> 0 <= hour <= 23 && 0 <= minute <= 59
    ensures r.Success? ==> r.value.hour == hour && r.value.minute == minute
    ensures (hour < 0 || hour > 23) ==> r == Failure(InvalidTimeHour(hour))
    ensures 0 <= hour <= 23 && (minute < 0 || minute > 59) ==> r == Failure(InvalidTimeMinute(minute))
  {
    if hour < 0 || hour > 23 then Failure(InvalidTimeHour(hour))
    else if minute < 0 || minute > 59 then Failure(InvalidTimeMinute(minute))
    else Success(Time(hour, minute))
  }

  /** Every time the constructor as written accepts, the full-day one accepts
      unchanged; it also accepts the evening hours the written one refuses. */
  lemma MakeWithinFullDay(hour: int, minute: int)
    ensures Make(hour, minute).Success? ==> MakeFullDay(hour, minute) == Make(hour, minute)
    ensures 13 <= hour <= 23 && 0 <= minute <= 59 ==> Make(hour, minute).Failure? && MakeFullDay(hour, minute).Success?
  {
  }

  /** The time the model's converter tests start from, 23:59, is refused by
      the constructor as written. */
  lemma LateEveningRefused()
    ensures Make(23, 59) == Failure(InvalidTimeHour(23))
    ensures MakeFullDay(23, 59) == Success(Time(23, 59))
  {
  }

  /** The boundary values the record's tests fix. */
  lemma MakeExamples()
    ensures Make(-1, 30).Failure? && Make(24, 30).Failure?
    ensures Make(10, -1).Failure? && Make(10, 60).Failure?
    ensures Make(0, 0) == Success(Time(0, 0)) && Make(12, 0) == Success(Time(12, 0))
    ensures Make(10, 30) == Success(Time(10, 30))
  {
  }

  /** The derived predicates: exact hour depends on the minute alone, noon and
      midnight on the hour alone, and no time is both noon and midnight. */
  lemma PredicatesOfTime(t: Time)
    ensures t.IsExactHour() <==> t.minute == 0
    ensures t.IsNoon() <==> t.hour == 12
    ensures t.IsMidnight() <==> t.hour == 0
    ensures !(t.IsNoon() && t.IsMidnight())
    ensures forall m :: Time(t.hour, m).IsNoon() == t.IsNoon() && Time(t.hour, m).IsMidnight() == t.IsMidnight()
  {
  }

  /** Equality of records is equality of both fields. */
  lemma StructuralEquality(a: Time, b: Time)
    ensures a == b <==> a.hour == b.hour && a.minute == b.minute
  {
  }
}
