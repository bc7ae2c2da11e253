/** The concrete phrases and parses the repository's tests fix, derived from
    the model. The tests build afternoon and evening times (hours 13..23),
    which only the corrected full-day record accepts; each such lemma says so. */
module Examples {

  import opened Wrappers
  import opened Errors
  import opened Numerals
  import opened TimeModel
  import opened Strategies
  import opened Converter
  import LegacyTime
  import opened LegacyStrategies
  import opened TimeParser

  lemma ConvertNoonMidnightAndNull()
    ensures Convert(Some(Time(12, 0))) == Success("noon")
    ensures Convert(Some(Time(0, 0))) == Success("midnight")
    ensures Convert(None) == Failure(NullTime)
  {
  }

  lemma ConvertExactHours()
    ensures Convert(Some(Time(4, 0))) == Success("four o'clock AM")
    ensures Convert(Some(Time(19, 0))) == Success("seven o'clock PM")
    ensures Make(19, 0).Failure? && MakeFullDay(19, 0) == Success(Time(19, 0))
  {
    assert "four" + " " + "o'clock" + " " + "AM" == "four o'clock AM";
    assert "seven" + " " + "o'clock" + " " + "PM" == "seven o'clock PM";
  }

  lemma ConvertPastWithPeriod()
    ensures Convert(Some(Time(4, 15))) == Success("quarter past four AM")
  {
    assert "quarter" + " " + "past" + " " + ("four" + " " + "AM") == "quarter past four AM";
  }

  lemma PastAfternoon()
    ensures FormatPast(Time(16, 30)) == Success("half past four PM")
    ensures Make(16, 30).Failure? && MakeFullDay(16, 30) == Success(Time(16, 30))
  {
    assert "half" + " " + "past" + " " + ("four" + " " + "PM") == "half past four PM";
  }

  lemma ConvertPastNoon()
    ensures Convert(Some(Time(12, 11))) == Success("eleven past noon")
  {
    assert "eleven" + " " + "past" + " " + "noon" == "eleven past noon";
  }

  lemma ConvertPastMidnight()
    ensures Convert(Some(Time(0, 1))) == Success("one past midnight")
  {
    assert "one" + " " + "past" + " " + "midnight" == "one past midnight";
  }

  lemma ConvertDigitalMorning()
    ensures Convert(Some(Time(2, 32))) == Success("two thirty two AM")
  {
    assert Cardinal(32) == "thirty" + (" " + "two");
    assert "two" + " " + ("thirty" + (" " + "two")) + " " + "AM" == "two thirty two AM";
  }

  lemma ConvertDigitalAfternoon()
    ensures Convert(Some(Time(16, 36))) == Success("four thirty six PM")
    ensures Make(16, 36).Failure? && MakeFullDay(16, 36) == Success(Time(16, 36))
  {
    assert Cardinal(36) == "thirty" + (" " + "six");
    assert "four" + " " + ("thirty" + (" " + "six")) + " " + "PM" == "four thirty six PM";
  }

  lemma ConvertDigitalNoon()
    ensures Convert(Some(Time(12, 39))) == Success("noon thirty nine")
  {
    assert Cardinal(39) == "thirty" + (" " + "nine");
    assert "noon" + " " + ("thirty" + (" " + "nine")) == "noon thirty nine";
  }

  lemma ConvertToMorning()
    ensures Convert(Some(Time(7, 35))) == Success("twenty five to eight AM")
  {
    assert "twenty five" + " " + "to" + " " + ("eight" + " " + "AM") == "twenty five to eight AM";
  }

  lemma ConvertToAfternoon()
    ensures Convert(Some(Time(15, 45))) == Success("quarter to four PM")
    ensures Make(15, 45).Failure? && MakeFullDay(15, 45) == Success(Time(15, 45))
  {
    assert "quarter" + " " + "to" + " " + ("four" + " " + "PM") == "quarter to four PM";
  }

  lemma ConvertToNoonAndMidnight()
    ensures Convert(Some(Time(11, 59))) == Success("one to noon")
    ensures Convert(Some(Time(23, 59))) == Success("one to midnight")
    ensures Make(23, 59).Failure? && MakeFullDay(23, 59) == Success(Time(23, 59))
  {
    assert "one" + " " + "to" + " " + "noon" == "one to noon";
    assert "one" + " " + "to" + " " + "midnight" == "one to midnight";
  }

  /** Noon and midnight take a period when the "to" rule names the hour after them. */
  lemma ConvertToAfterNoonAndMidnight()
    ensures Convert(Some(Time(12, 40))) == Success("twenty to one PM")
    ensures Convert(Some(Time(0, 40))) == Success("twenty to one AM")
  {
    assert "twenty" + " " + "to" + " " + ("one" + " " + "PM") == "twenty to one PM";
    assert "twenty" + " " + "to" + " " + ("one" + " " + "AM") == "twenty to one AM";
  }

  lemma LegacyPastPhrases()
    ensures PastFormat(LegacyTime.Time(4, 15)) == Success("quarter past four")
    ensures PastFormat(LegacyTime.Time(0, 1)) == Success("one past midnight")
  {
    assert "quarter" + " " + "past" + " " + "four" == "quarter past four";
    assert "one" + " " + "past" + " " + "midnight" == "one past midnight";
  }

  lemma LegacyPastNoon()
    ensures PastFormat(LegacyTime.Time(12, 11)) == Success("eleven past noon")
  {
    assert "eleven" + " " + "past" + " " + "noon" == "eleven past noon";
  }

  lemma LegacyPastTwentyFive()
    ensures PastFormat(LegacyTime.Time(6, 25)) == Success("twenty five past six")
  {
    assert "twenty five" + " " + "past" + " " + "six" == "twenty five past six";
  }

  lemma LegacyDigitalPhrases()
    ensures DigitalFormat(LegacyTime.Time(1, 31)) == Success("one thirty one")
    ensures DigitalFormat(LegacyTime.Time(8, 39)) == Success("eight thirty nine")
  {
    assert "one" + " " + "thirty one" == "one thirty one";
    assert "eight" + " " + "thirty nine" == "eight thirty nine";
  }

  lemma LegacyHourWords()
    ensures HourWord(0) == Success("twelve") && HourWord(11) == Success("eleven")
    ensures HourWord(23) == Failure(HourNotInVocabulary(23))
  {
  }

  lemma ParseRejectsMissingInput()
    ensures Parse(None) == Failure(NullInput)
    ensures Parse(Some("")) == Failure(EmptyInput) && Parse(Some("   ")) == Failure(EmptyInput)
  {
    assert Trim("") == "";
    assert Trim("   ") == "";
  }

  lemma ParseRejectsMalformed()
    ensures Parse(Some("10")) == Failure(InvalidFormat)
    ensures Parse(Some("ab:cd")) == Failure(InvalidFormat)
    ensures Parse(Some("test")) == Failure(InvalidFormat)
  {
    TrimKeeps("10");
    TrimKeeps("ab:cd");
    TrimKeeps("test");
  }

  lemma ParseRejectsOutOfRange()
    ensures Parse(Some("25:70")) == Failure(InvalidTimeHour(25))
  {
    var t := "25:70";
    assert MatchesTimePattern(t);
    ParseWellFormed(t);
    TwoDigitValue(t[..2]);
    assert DecimalValue(t[..2]) == 25;
  }

  lemma ParseIgnoresSpaces()
    ensures Parse(Some(" 10:30 ")) == Success(LegacyTime.Time(10, 30))
  {
    RoundTrip(10, 30, false, " ", " ");
    assert DigitChar(1) == '1' && DigitChar(0) == '0' && DigitChar(3) == '3';
    assert " " + Render(10, 30, false) + " " == " 10:30 ";
  }

  lemma ParseAcceptsLeadingZero()
    ensures Parse(Some("01:05")) == Success(LegacyTime.Time(1, 5))
  {
    ParseRendered(1, 5, true);
    assert DigitChar(0) == '0' && DigitChar(1) == '1' && DigitChar(5) == '5';
    assert Render(1, 5, true) == "01:05";
  }

  lemma ParseAcceptsOneDigitHour()
    ensures Parse(Some("4:28")) == Success(LegacyTime.Time(4, 28))
  {
    ParseRendered(4, 28, false);
    assert DigitChar(4) == '4' && DigitChar(2) == '2' && DigitChar(8) == '8';
    assert Render(4, 28, false) == "4:28";
  }
}
