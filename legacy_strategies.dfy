/** The "past" and "digital" rules of the older 12-hour variant (root
    package): the same minute ranges as the 24-hour rules, but the hour is
    said without AM or PM. */
module LegacyStrategies {

  import opened Wrappers
  import opened Errors
  import opened Numerals
  import opened Phrases
  import opened Vocabulary
  import opened LegacyTime

  /** The 12-hour variant's hour table: 0 is "twelve". */
  const TwelveHourWords: map<int, string> := map[
    0 := "twelve", 1 := "one", 2 := "two", 3 := "three", 4 := "four", 5 := "five",
    6 := "six", 7 := "seven", 8 := "eight", 9 := "nine", 10 := "ten", 11 := "eleven"
  ]

  /** The 12-hour variant's hour lookup, failing outside 0..11. */
  function HourWord(hour: int): (r: Result<string, Error>)
    ensures r.Success? <==> 0 <= hour <= 11
    ensures !(0 <= hour <= 11) ==> r == Failure(HourNotInVocabulary(hour))
    ensures r.Success? ==> r.value == if hour == 0 then "twelve" else Cardinal(hour)
  {
    if hour in TwelveHourWords then Success(TwelveHourWords[hour])
    else Failure(HourNotInVocabulary(hour))
  }

  /** How the hour of a time is said: noon, midnight, or its word. */
  function DisplayHourWord(t: Time): (r: Result<string, Error>)
    ensures r.Success? <==> 0 <= t.hour <= 12
    ensures t.hour == 12 ==> r == Success("noon")
    ensures t.hour == 0 ==> r == Success("midnight")
    ensures 1 <= t.hour <= 11 ==> r == Success(Cardinal(t.hour))
  {
    if t.hour == 12 then Success(Noon)
    else if t.hour == 0 then Success(Midnight)
    else HourWord(t.hour)
  }

  predicate PastCanHandle(t: Time) {
    t.minute >= 1 && t.minute <= 30
  }

  predicate DigitalCanHandle(t: Time) {
    t.minute >= 31 && t.minute <= 39 && t.minute != 35
  }

  /** Reference phrase for the hour on a 12-hour clock. */
  function SpokenHour(hour: int): string
    requires 0 <= hour <= 12
  {
    if hour == 12 then "noon" else if hour == 0 then "midnight" else Cardinal(hour)
  }

  function PastFormat(t: Time): (r: Result<string, Error>)
    ensures r.Success? <==> IsMinuteWordKey(t.minute) && 0 <= t.hour <= 12
    ensures !IsMinuteWordKey(t.minute) ==> r == Failure(MinuteNotInVocabulary(t.minute))
    ensures r.Success? ==> r.value == MinuteName(t.minute) + " " + PastPreposition + " " + SpokenHour(t.hour)
  {
    var minuteWord :- MinuteWord(t.minute);
    var hourWord :- DisplayHourWord(t);
    Success(minuteWord + " " + PastPreposition + " " + hourWord)
  }

  function DigitalFormat(t: Time): (r: Result<string, Error>)
    ensures r.Success? <==> IsMinuteWordKey(t.minute) && 0 <= t.hour <= 12
    ensures !IsMinuteWordKey(t.minute) ==> r == Failure(MinuteNotInVocabulary(t.minute))
    ensures r.Success? ==> r.value == SpokenHour(t.hour) + " " + MinuteName(t.minute)
  {
    var minuteWord :- MinuteWord(t.minute);
    var hourWord :- DisplayHourWord(t);
    Success(hourWord + " " + minuteWord)
  }

  /** The two rules accept disjoint minutes. */
  lemma RulesDisjoint(t: Time)
    ensures !(PastCanHandle(t) && DigitalCanHandle(t))
  {
  }

  /** A constructed time that a rule accepts is formatted without failure,
      and the phrase never carries AM or PM. */
  lemma HandledTimeHasNoPeriod(t: Time)
    requires Make(t.hour, t.minute).Success?
    ensures PastCanHandle(t) ==> PastFormat(t).Success? && EndsInLetter(PastFormat(t).value)
    ensures DigitalCanHandle(t) ==> DigitalFormat(t).Success? && EndsInLetter(DigitalFormat(t).value)
    ensures PastCanHandle(t) ==> !EndsWith(PastFormat(t).value, " AM") && !EndsWith(PastFormat(t).value, " PM")
    ensures DigitalCanHandle(t) ==> !EndsWith(DigitalFormat(t).value, " AM") && !EndsWith(DigitalFormat(t).value, " PM")
  {
    if PastCanHandle(t) {
      var hour := SpokenHour(t.hour);
      if 1 <= t.hour <= 11 {
        NumeralsEndInLetter(t.hour);
      }
      assert EndsInLetter(hour);
      AppendKeepsLetter(MinuteName(t.minute) + " " + PastPreposition + " ", hour);
      LetterIsNoPeriod(PastFormat(t).value);
    }
    if DigitalCanHandle(t) {
      NumeralsEndInLetter(t.minute);
      AppendKeepsLetter(SpokenHour(t.hour) + " ", MinuteName(t.minute));
      LetterIsNoPeriod(DigitalFormat(t).value);
    }
  }
}
