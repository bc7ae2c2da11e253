/** The 24-hour converter: tries the rules in a fixed order and formats the
    time with the first one that accepts it. */
module Converter {

  import opened Wrappers
  import opened Errors
  import opened Numerals
  import opened Vocabulary
  import opened TimeModel
  import opened Strategies
  import opened Phrases

  /** The order in which the converter consults the rules. */
  const Rules: seq<Rule> := [ExactHour, Past, Digital, To]

  /** The position of the first rule of `rules` that accepts `t`, if any. */
  function FirstMatch(rules: seq<Rule>, t: Time): (r: Option<nat>)
    ensures r.Some? ==> r.value < |rules| && CanHandle(rules[r.value], t)
    ensures r.Some? ==> forall j :: 0 <= j < r.value ==> !CanHandle(rules[j], t)
    ensures r.None? <==> forall j :: 0 <= j < |rules| ==> !CanHandle(rules[j], t)
  {
    if rules == [] then None
    else if CanHandle(rules[0], t) then Some(0)
    else match FirstMatch(rules[1..], t)
      case None => None
      case Some(i) => Some(i + 1)
  }

  /** Searching the rules in order finds the rule the partition assigns to the
      minute; only a negative minute escapes every rule. */
  lemma FirstMatchIsRuleFor(t: Time)
    ensures FirstMatch(Rules, t).None? <==> t.minute < 0
    ensures FirstMatch(Rules, t).Some? ==> Rules[FirstMatch(Rules, t).value] == RuleFor(t.minute)
  {
    var r := FirstMatch(Rules, t);
    if r.None? {
      assert !CanHandle(Rules[0], t) && !CanHandle(Rules[1], t);
      assert !CanHandle(Rules[2], t) && !CanHandle(Rules[3], t);
    } else if r.value > 0 {
      assert !CanHandle(Rules[0], t);
      if r.value > 1 {
        assert !CanHandle(Rules[1], t);
        if r.value > 2 {
          assert !CanHandle(Rules[2], t);
        }
      }
    }
  }

  /** The spoken form of a time; `None` stands for a null reference. */
  function Convert(time: Option<Time>): (r: Result<string, Error>)
    ensures time.None? ==> r == Failure(NullTime)
    ensures time.Some? && 0 <= time.value.minute ==>
              r == Format(RuleFor(time.value.minute), time.value)
    ensures time.Some? ==>
              (r == Failure(NoFormatter(time.value.hour, time.value.minute)) <==> time.value.minute < 0)
  {
    match time
    case None => Failure(NullTime)
    case Some(t) =>
      FirstMatchIsRuleFor(t);
      FormatFailsOnlyInLookups(RuleFor(t.minute), t);
      match FirstMatch(Rules, t)
      case None => Failure(NoFormatter(t.hour, t.minute))
      case Some(i) => Format(Rules[i], t)
  }

  /** Every time of a 24-hour day has a non-empty spoken form: some rule
      accepts it, and that rule finds all its words. */
  lemma ConvertTotal(t: Time)
    requires 0 <= t.hour <= 23 && 0 <= t.minute <= 59
    ensures Convert(Some(t)).Success?
    ensures |Convert(Some(t)).value| > 0
  {
    ExactlyOneRule(t);
    HandledTimeFormats(RuleFor(t.minute), t);
  }

  /** Hence neither the missing-rule failure nor a failed lookup is reachable
      from a constructed time, whichever hour range the constructor enforces. */
  lemma ConvertConstructedTime(hour: int, minute: int)
    requires MakeFullDay(hour, minute).Success?
    ensures Convert(Some(MakeFullDay(hour, minute).value)).Success?
    ensures Make(hour, minute).Success? ==> Convert(Some(Make(hour, minute).value)).Success?
  {
    ConvertTotal(Time(hour, minute));
  }

  /** The hour a phrase is said against: the next one for the "to" rule. */
  function NamedHour(t: Time): int {
    if CanHandle(To, t) then t.hour + 1 else t.hour
  }

  lemma HourPhraseEnding(hour: int)
    requires 0 <= hour <= 24
    ensures EndsAsNamed(HourPhrase(hour), hour)
  {
    if !IsNoonOrMidnight(hour) {
      SpaceThenPeriod(Cardinal(hour % 12) + " ", hour);
    }
  }

  /** A phrase closing with an hour's phrase ends as that hour demands. */
  lemma EndsWithHourPhrase(front: string, hour: int)
    requires 0 <= hour <= 24
    ensures EndsAsNamed(front + HourPhrase(hour), hour)
  {
    HourPhraseEnding(hour);
    AppendKeepsEnding(front, HourPhrase(hour), hour);
  }

  lemma ExactHourEnding(t: Time)
    requires 0 <= t.hour <= 23 && CanHandle(ExactHour, t)
    ensures Format(ExactHour, t).Success? && EndsAsNamed(Format(ExactHour, t).value, NamedHour(t))
  {
    if !IsNoonOrMidnight(t.hour) {
      SpaceThenPeriod(Cardinal(t.hour % 12) + " " + ExactHourSuffix + " ", t.hour);
    }
  }

  lemma PastEnding(t: Time)
    requires 0 <= t.hour <= 23 && CanHandle(Past, t)
    ensures Format(Past, t).Success? && EndsAsNamed(Format(Past, t).value, NamedHour(t))
  {
    assert NamedHour(t) == t.hour;
    EndsWithHourPhrase(MinuteName(t.minute) + " " + PastPreposition + " ", t.hour);
  }

  lemma DigitalEnding(t: Time)
    requires 0 <= t.hour <= 23 && CanHandle(Digital, t)
    ensures Format(Digital, t).Success? && EndsAsNamed(Format(Digital, t).value, NamedHour(t))
  {
    var name := MinuteName(t.minute);
    var r := FormatDigital(t);
    assert NamedHour(t) == t.hour;
    if !IsNoonOrMidnight(t.hour) {
      var front := Cardinal(t.hour % 12) + " " + name + " ";
      assert r.value == front + PeriodName(t.hour);
      SpaceThenPeriod(front, t.hour);
    } else {
      NumeralsEndInLetter(t.minute);
      if t.hour == 12 {
        AppendKeepsLetter(Noon + " ", name);
      } else {
        AppendKeepsLetter(Midnight + " ", name);
      }
    }
  }

  lemma ToEnding(t: Time)
    requires 0 <= t.hour <= 23 && t.minute <= 59 && CanHandle(To, t)
    ensures Format(To, t).Success? && EndsAsNamed(Format(To, t).value, NamedHour(t))
  {
    MinutesToHaveWords(t);
    assert NamedHour(t) == t.hour + 1;
    EndsWithHourPhrase(MinuteName(60 - t.minute) + " " + ToPreposition + " ", t.hour + 1);
  }

  /** The rule that accepts a time ends its phrase as the named hour demands. */
  lemma RuleEnding(rule: Rule, t: Time)
    requires 0 <= t.hour <= 23 && 0 <= t.minute <= 59 && CanHandle(rule, t)
    ensures Format(rule, t).Success? && EndsAsNamed(Format(rule, t).value, NamedHour(t))
  {
    match rule {
      case ExactHour => ExactHourEnding(t);
      case Past => PastEnding(t);
      case Digital => DigitalEnding(t);
      case To => ToEnding(t);
    }
  }

  /** A phrase ending as its named hour demands carries AM or PM accordingly. */
  lemma PeriodOfEnding(s: string, named: int)
    requires EndsAsNamed(s, named)
    ensures EndsWith(s, " AM") <==> !IsNoonOrMidnight(named) && named < 12
    ensures EndsWith(s, " PM") <==> !IsNoonOrMidnight(named) && named >= 12
  {
    if IsNoonOrMidnight(named) {
      LetterIsNoPeriod(s);
    } else {
      assert " AM"[1] != " PM"[1];
      assert EndsWith(s, " AM") ==> s[|s| - 2] == 'A';
      assert EndsWith(s, " PM") ==> s[|s| - 2] == 'P';
    }
  }

  /** A spoken time carries AM or PM exactly when the hour it names is
      neither noon nor midnight, and then the period of that hour: 12:40 is
      "twenty to one PM" although 12:11 is "eleven past noon". */
  lemma PeriodMarksNamedHour(t: Time)
    requires 0 <= t.hour <= 23 && 0 <= t.minute <= 59
    ensures Convert(Some(t)).Success?
    ensures EndsWith(Convert(Some(t)).value, " AM") <==> !IsNoonOrMidnight(NamedHour(t)) && NamedHour(t) < 12
    ensures EndsWith(Convert(Some(t)).value, " PM") <==> !IsNoonOrMidnight(NamedHour(t)) && NamedHour(t) > 12
  {
    ExactlyOneRule(t);
    var rule := RuleFor(t.minute);
    var named := NamedHour(t);
    assert Convert(Some(t)) == Format(rule, t);
    RuleEnding(rule, t);
    PeriodOfEnding(Format(rule, t).value, named);
  }
}
