/** The four formatting rules of the 24-hour converter (package `strategy`):
    each decides from the minute whether it applies and builds a phrase from
    the vocabulary, appending AM/PM except where it names noon or midnight. */
module Strategies {

  import opened Wrappers
  import opened Errors
  import opened Numerals
  import opened Vocabulary
  import opened TimeModel

  datatype Rule = ExactHour | Past | Digital | To

  predicate CanHandle(rule: Rule, t: Time) {
    match rule
    case ExactHour => t.IsExactHour()
    case Past => t.minute >= 1 && t.minute <= 30
    case Digital => t.minute >= 31 && t.minute <= 39 && t.minute != 35
    case To => t.minute == 35 || t.minute >= 40
  }

  function Format(rule: Rule, t: Time): Result<string, Error> {
    match rule
    case ExactHour => FormatExactHour(t)
    case Past => FormatPast(t)
    case Digital => FormatDigital(t)
    case To => FormatTo(t)
  }

  /** How an hour 0..24 of a 24-hour clock is said after "past" or "to":
      noon, midnight (0 and 24), or the 12-hour word followed by its period. */
  function HourPhrase(hour: int): string
    requires 0 <= hour <= 24
  {
    if hour == 12 then "noon"
    else if hour == 0 || hour == 24 then "midnight"
    else Cardinal(hour % 12) + " " + PeriodName(hour)
  }

  /** The rule a minute of 0..59 belongs to. */
  function RuleFor(minute: int): Rule {
    if minute == 0 then ExactHour
    else if minute <= 30 then Past
    else if minute <= 39 && minute != 35 then Digital
    else To
  }

  /** The 12-hour word of an hour followed by its period, as the "past" and
      "to" rules say an hour other than noon and midnight; fails exactly as
      the lookup of the word does. */
  function HourWithPeriod(hour: int): (r: Result<string, Error>)
    ensures r.Success? <==> 0 <= hour <= 23 && hour != 0 && hour != 12
    ensures r.Failure? ==> r == Failure(TwelveHourFormatWord(hour).error)
    ensures r.Success? ==> r.value == HourPhrase(hour)
  {
    var hourWord :- TwelveHourFormatWord(hour);
    match Period(hour)
    case Failure(e) => Failure(e)
    case Success(period) => Success(hourWord + " " + period)
  }

  function FormatExactHour(t: Time): (r: Result<string, Error>)
    ensures r.Success? <==> 0 <= t.hour <= 23
    ensures !(0 <= t.hour <= 23) ==> r == Failure(HourOutOfRange(t.hour))
    ensures t.hour == 12 ==> r == Success("noon")
    ensures t.hour == 0 ==> r == Success("midnight")
    ensures r.Success? && t.hour != 0 && t.hour != 12 ==>
              r.value == Cardinal(t.hour % 12) + " " + ExactHourSuffix + " " + PeriodName(t.hour)
  {
    if t.IsNoon() then Success(Noon)
    else if t.IsMidnight() then Success(Midnight)
    else
      var hourWord :- TwelveHourFormatWord(t.hour);
      match Period(t.hour)
      case Failure(e) => Failure(e)
      case Success(period) => Success(hourWord + " " + ExactHourSuffix + " " + period)
  }

  function FormatPast(t: Time): (r: Result<string, Error>)
    ensures r.Success? <==> IsMinuteWordKey(t.minute) && 0 <= t.hour <= 23
    ensures !IsMinuteWordKey(t.minute) ==> r == Failure(MinuteNotInVocabulary(t.minute))
    ensures IsMinuteWordKey(t.minute) && !(0 <= t.hour <= 23) ==> r == Failure(HourOutOfRange(t.hour))
    ensures r.Success? ==> r.value == MinuteName(t.minute) + " " + PastPreposition + " " + HourPhrase(t.hour)
  {
    var minuteWord :- MinuteWord(t.minute);
    assert minuteWord == MinuteName(t.minute);
    if t.IsNoon() then Success(minuteWord + " " + PastPreposition + " " + Noon)
    else if t.IsMidnight() then Success(minuteWord + " " + PastPreposition + " " + Midnight)
    else
      var hourPhrase :- HourWithPeriod(t.hour);
      Success(minuteWord + " " + PastPreposition + " " + hourPhrase)
  }

  function FormatDigital(t: Time): (r: Result<string, Error>)
    ensures r.Success? <==> IsMinuteWordKey(t.minute) && 0 <= t.hour <= 23
    ensures !IsMinuteWordKey(t.minute) ==> r == Failure(MinuteNotInVocabulary(t.minute))
    ensures IsMinuteWordKey(t.minute) && !(0 <= t.hour <= 23) ==> r == Failure(HourOutOfRange(t.hour))
    ensures r.Success? && t.hour == 12 ==> r.value == Noon + " " + MinuteName(t.minute)
    ensures r.Success? && t.hour == 0 ==> r.value == Midnight + " " + MinuteName(t.minute)
    ensures r.Success? && t.hour != 0 && t.hour != 12 ==>
              r.value == Cardinal(t.hour % 12) + " " + MinuteName(t.minute) + " " + PeriodName(t.hour)
  {
    var minuteWord :- MinuteWord(t.minute);
    assert minuteWord == MinuteName(t.minute);
    if t.IsNoon() then Success(Noon + " " + minuteWord)
    else if t.IsMidnight() then Success(Midnight + " " + minuteWord)
    else
      var hourWord :- TwelveHourFormatWord(t.hour);
      match Period(t.hour)
      case Failure(e) => Failure(e)
      case Success(period) => Success(hourWord + " " + minuteWord + " " + period)
  }

  /** Counts down to the next hour, whose period is the one appended. */
  function FormatTo(t: Time): (r: Result<string, Error>)
    ensures r.Success? <==> IsMinuteWordKey(60 - t.minute) && 0 <= t.hour <= 23
    ensures !IsMinuteWordKey(60 - t.minute) ==> r == Failure(MinuteNotInVocabulary(60 - t.minute))
    ensures IsMinuteWordKey(60 - t.minute) && t.hour == -1 ==> r == Failure(HourNotInVocabulary(0))
    ensures IsMinuteWordKey(60 - t.minute) && (t.hour < -1 || t.hour > 23) ==>
              r == Failure(HourOutOfRange(t.hour + 1))
    ensures r.Success? ==> r.value == MinuteName(60 - t.minute) + " " + ToPreposition + " " + HourPhrase(t.hour + 1)
  {
    var nextHour := t.hour + 1;
    var minutesTo := 60 - t.minute;
    match MinuteWord(minutesTo)
    case Failure(e) => Failure(e)
    case Success(minuteWord) =>
      if nextHour == 12 then Success(minuteWord + " " + ToPreposition + " " + Noon)
      else if nextHour == 24 then Success(minuteWord + " " + ToPreposition + " " + Midnight)
      else
        match HourWithPeriod(nextHour)
        case Failure(e) => Failure(e)
        case Success(hourPhrase) => Success(minuteWord + " " + ToPreposition + " " + hourPhrase)
  }

  /** For every minute of the hour exactly one rule applies: the ranges of the
      four rules partition 0..59. */
  lemma ExactlyOneRule(t: Time)
    requires 0 <= t.minute <= 59
    ensures forall rule :: CanHandle(rule, t) <==> rule == RuleFor(t.minute)
  {
  }

  /** Minute 60 and above falls to the "to" rule and negative minutes to none. */
  lemma RulesOutsideHour(t: Time)
    ensures t.minute >= 60 ==> forall rule :: CanHandle(rule, t) <==> rule == To
    ensures t.minute < 0 ==> forall rule :: !CanHandle(rule, t)
  {
  }

  /** The "to" rule counts down 25 minutes or at most 20, so the count always has a word. */
  lemma MinutesToHaveWords(t: Time)
    requires CanHandle(To, t) && t.minute <= 59
    ensures 60 - t.minute == 25 || 1 <= 60 - t.minute <= 20
    ensures IsMinuteWordKey(60 - t.minute)
  {
  }

  /** A rule that accepts a time of a 24-hour day formats it without failure:
      every word it looks up is in the tables. */
  lemma HandledTimeFormats(rule: Rule, t: Time)
    requires 0 <= t.hour <= 23 && 0 <= t.minute <= 59
    requires CanHandle(rule, t)
    ensures Format(rule, t).Success?
    ensures |Format(rule, t).value| > 0
  {
    if rule == To {
      MinutesToHaveWords(t);
    }
  }

  /** A rule fails only through a failed vocabulary lookup. */
  lemma FormatFailsOnlyInLookups(rule: Rule, t: Time)
    ensures Format(rule, t).Failure? ==> Format(rule, t).error.IsLookupError()
  {
  }
}
