/** The British English vocabulary of the 24-hour converter: fixed tokens, the
    hour and minute word tables, and the three guarded lookups over them. */
module Vocabulary {

  import opened Wrappers
  import opened Errors
  import opened Numerals

  const Noon: string := "noon"
  const Midnight: string := "midnight"
  const ExactHourSuffix: string := "o'clock"
  const PastPreposition: string := "past"
  const ToPreposition: string := "to"
  const AM: string := "AM"
  const PM: string := "PM"

  /** Words for the hours of a 12-hour dial; 0 (twelve) has no entry. */
  const HourWords: map<int, string> := map[
    1 := "one", 2 := "two", 3 := "three", 4 := "four",
    5 := "five", 6 := "six", 7 := "seven", 8 := "eight",
    9 := "nine", 10 := "ten", 11 := "eleven"
  ]

  /** Words for the minutes said directly; 35 and 40..59 are said as "to" the next hour. */
  const MinuteWords: map<int, string> := map[
    1 := "one", 2 := "two", 3 := "three", 4 := "four",
    5 := "five", 6 := "six", 7 := "seven", 8 := "eight",
    9 := "nine", 10 := "ten", 11 := "eleven", 12 := "twelve",
    13 := "thirteen", 14 := "fourteen", 15 := "quarter", 16 := "sixteen",
    17 := "seventeen", 18 := "eighteen", 19 := "nineteen", 20 := "twenty",
    21 := "twenty one", 22 := "twenty two", 23 := "twenty three", 24 := "twenty four",
    25 := "twenty five", 26 := "twenty six", 27 := "twenty seven", 28 := "twenty eight",
    29 := "twenty nine", 30 := "half", 31 := "thirty one", 32 := "thirty two",
    33 := "thirty three", 34 := "thirty four", 36 := "thirty six", 37 := "thirty seven",
    38 := "thirty eight", 39 := "thirty nine"
  ]

  /** The minutes the minute table covers. */
  predicate IsMinuteWordKey(minute: int) {
    1 <= minute <= 39 && minute != 35
  }

  /** The word of a 24-hour clock hour on the 12-hour dial. The range check
      comes first; the table then has no word for 0, 12 or any other hour
      whose 12-hour form is 0. */
  function TwelveHourFormatWord(hour: int): (r: Result<string, Error>)
    ensures r.Success? <==> 0 <= hour <= 23 && hour % 12 != 0
    ensures (hour < 0 || hour > 23) ==> r == Failure(HourOutOfRange(hour))
    ensures 0 <= hour <= 23 && hour % 12 == 0 ==> r == Failure(HourNotInVocabulary(hour))
    ensures r.Success? ==> r.value == Cardinal(hour % 12)
  {
    if hour < 0 || hour > 23 then Failure(HourOutOfRange(hour))
    else if hour % 12 !in HourWords then Failure(HourNotInVocabulary(hour))
    else Success(HourWords[hour % 12])
  }

  /** The word for a minute, or a failure for a minute the table lacks. */
  function MinuteWord(minute: int): (r: Result<string, Error>)
    ensures r.Success? <==> IsMinuteWordKey(minute)
    ensures !IsMinuteWordKey(minute) ==> r == Failure(MinuteNotInVocabulary(minute))
    ensures r.Success? ==> r.value == MinuteName(minute)
  {
    MinuteWordsAreMinuteNames();
    if minute in MinuteWords then Success(MinuteWords[minute])
    else Failure(MinuteNotInVocabulary(minute))
  }

  /** The minute table holds exactly the minutes 1..39 other than 35, each
      under its spoken name. */
  lemma MinuteWordsAreMinuteNames()
    ensures forall m :: m in MinuteWords <==> IsMinuteWordKey(m)
    ensures forall m :: m in MinuteWords ==> MinuteWords[m] == MinuteName(m)
  {
    MinuteKeys();
    MinutesFrom1To5();
    MinutesFrom6To9();
    MinutesFrom10To14();
    MinutesFrom15To20();
    MinutesFrom21To25();
    MinutesFrom26To29();
    MinutesFrom30To34();
    MinutesFrom36To39();
  }

  lemma MinuteKeys()
    ensures forall m :: m in MinuteWords ==> IsMinuteWordKey(m)
  {
  }

  lemma MinutesFrom1To5()
    ensures forall m :: 1 <= m <= 5 ==> m in MinuteWords && MinuteWords[m] == MinuteName(m)
  {
  }

  lemma MinutesFrom6To9()
    ensures forall m :: 6 <= m <= 9 ==> m in MinuteWords && MinuteWords[m] == MinuteName(m)
  {
  }

  lemma MinutesFrom10To14()
    ensures forall m :: 10 <= m <= 14 ==> m in MinuteWords && MinuteWords[m] == MinuteName(m)
  {
  }

  lemma MinutesFrom15To20()
    ensures forall m :: 15 <= m <= 20 ==> m in MinuteWords && MinuteWords[m] == MinuteName(m)
  {
  }

  lemma MinutesFrom21To25()
    ensures forall m :: 21 <= m <= 25 ==> m in MinuteWords && MinuteWords[m] == MinuteName(m)
  {
  }

  lemma MinutesFrom26To29()
    ensures forall m :: 26 <= m <= 29 ==> m in MinuteWords && MinuteWords[m] == MinuteName(m)
  {
  }

  lemma MinutesFrom30To34()
    ensures forall m :: 30 <= m <= 34 ==> m in MinuteWords && MinuteWords[m] == MinuteName(m)
  {
  }

  lemma MinutesFrom36To39()
    ensures forall m :: 36 <= m <= 39 ==> m in MinuteWords && MinuteWords[m] == MinuteName(m)
  {
  }

  /** AM or PM for a 24-hour clock hour. */
  function Period(hour: int): (r: Result<string, Error>)
    ensures r.Success? <==> 0 <= hour <= 23
    ensures !(0 <= hour <= 23) ==> r == Failure(InvalidPeriodHour(hour))
    ensures r.Success? ==> (r.value == AM <==> hour < 12) && (r.value == PM <==> hour >= 12)
  {
    if hour < 0 || hour > 23 then Failure(InvalidPeriodHour(hour))
    else Success(if hour < 12 then AM else PM)
  }

  /** An hour and the hour twelve later share their word and differ in period. */
  lemma HalfDayApart(hour: int)
    requires 1 <= hour <= 11
    ensures TwelveHourFormatWord(hour) == TwelveHourFormatWord(hour + 12)
    ensures TwelveHourFormatWord(hour).Success?
    ensures Period(hour) == Success(AM) && Period(hour + 12) == Success(PM)
  {
  }

  /** The fixed tokens are pairwise distinct, and none of them is an hour or minute word. */
  lemma TokensDistinct()
    ensures |{Noon, Midnight, ExactHourSuffix, PastPreposition, ToPreposition, AM, PM}| == 7
    ensures forall k :: k in HourWords ==> HourWords[k] !in {Noon, Midnight, ExactHourSuffix, PastPreposition, ToPreposition, AM, PM}
    ensures forall k :: k in MinuteWords ==> MinuteWords[k] !in {Noon, Midnight, ExactHourSuffix, PastPreposition, ToPreposition, AM, PM}
  {
  }

  /** The examples the vocabulary's tests fix. */
  lemma VocabularyExamples()
    ensures TwelveHourFormatWord(2) == TwelveHourFormatWord(14) == Success("two")
    ensures TwelveHourFormatWord(23) == Success("eleven")
    ensures TwelveHourFormatWord(-5).Failure? && TwelveHourFormatWord(0).Failure?
    ensures TwelveHourFormatWord(12).Failure? && TwelveHourFormatWord(24).Failure?
    ensures MinuteWord(15) == Success("quarter") && MinuteWord(30) == Success("half")
    ensures MinuteWord(25) == Success("twenty five") && MinuteWord(65).Failure?
    ensures Period(0) == Period(11) == Success("AM") && Period(12) == Period(23) == Success("PM")
    ensures Period(-1).Failure? && Period(24).Failure?
  {
  }
}
