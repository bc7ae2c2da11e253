# British spoken time — a verified model

This project models the core of a small Java library that turns a clock time
into the phrase a British English speaker would use: "quarter past four AM",
"twenty five to eight AM", "seven thirty eight AM", "one to midnight",
"noon". It covers two variants.

- **The 24-hour converter** (packages `vocabulary`, `model`, `strategy` and
  `converter`):
  - a vocabulary of fixed tokens and two word tables, with three guarded
    lookups (hour word, minute word, AM/PM);
  - a validated time record;
  - four formatting rules (exact hour, "past", "digital", "to"), each with a
    minute range it accepts and a phrase it builds;
  - a converter that tries the rules in a fixed order and uses the first that
    accepts the time.
- **The older 12-hour variant** (root package):
  - a time record for hours 0..12;
  - a parser for `H:MM` / `HH:MM` text;
  - the "past" and "digital" rules without AM or PM.

Every part of the source is pure, so the model is functional.

- Each Java exception becomes a `Failure` of `Result` (module `Wrappers`),
  carrying an `Error` that names the check that failed and the offending value
  (module `Errors`).
- A null reference becomes `None` of `Option`.
- The lookups and the rules have no preconditions. Like the Java code, they
  fail on out-of-range input, and each success domain is proved as an
  if-and-only-if.

Each lookup and phrase is compared with a reference definition written
independently of the tables:

- `Numerals.Cardinal` spells a number;
- `Numerals.MinuteName` names a minute count ("quarter", "half", otherwise the
  cardinal);
- `Numerals.PeriodName` gives AM or PM;
- `Strategies.HourPhrase` gives the hour as said after "past" or "to".

Module layout, one file each:

- `wrappers.dfy`, `errors.dfy`, `numerals.dfy` and `phrases.dfy` hold shared
  definitions and facts about how phrases end;
- `vocabulary.dfy`, `time_model.dfy`, `strategies.dfy` and `converter.dfy`
  model the 24-hour converter;
- `legacy_time.dfy`, `time_parser.dfy` and `legacy_strategies.dfy` model the
  12-hour variant;
- `examples.dfy` holds the concrete phrases and parses that the repository's
  tests fix.

Points where the repository disagrees with itself, and which side the model
takes:

- `strategy/ExactHourStrategy.java` appends the period ("four o'clock AM").
  One strategy test expects no suffix, but the converter's own tests expect
  the suffix. The model follows the code.
- Noon and midnight do carry a period in one case: the "to" rule names the
  hour after them, so 12:40 is "twenty to one PM" and 0:40 "twenty to one
  AM". The model proves the exact statement,
  `Converter.PeriodMarksNamedHour`: a phrase carries a period exactly when
  the hour it *names* is neither noon nor midnight.
- `model/Time.java` accepts hours 0..12 only, while the vocabulary, the "to"
  rule and the tests are written for 0..23. See "## Findings". The
  afternoon and evening examples (hours 13..23) therefore hold only for the
  corrected record, and each of those lemmas also states that the written
  record refuses the time.

## Model

| member | source | states |
|---|---|---|
| Vocabulary.TwelveHourFormatWord | src/main/java/pl/umanski/vocabulary/BritishTimeVocabulary.java:81-92 | succeeds iff 0 <= hour <= 23 and hour % 12 != 0; fails with the range error outside 0..23 and with the not-in-vocabulary error for 0 and 12; the word is the cardinal of hour % 12 |
| Vocabulary.MinuteWord | src/main/java/pl/umanski/vocabulary/BritishTimeVocabulary.java:101-107 | succeeds iff the minute is in 1..39 and is not 35, otherwise fails with the minute error; the word is the reference minute name (quarter, half, cardinal) |
| Vocabulary.MinuteWordsAreMinuteNames | src/main/java/pl/umanski/vocabulary/BritishTimeVocabulary.java:57-68 | the minute table's keys are exactly 1..39 without 35, and every entry equals the independently defined minute name |
| Vocabulary.Period | src/main/java/pl/umanski/vocabulary/BritishTimeVocabulary.java:116-122 | succeeds iff 0 <= hour <= 23, otherwise fails with the period error; AM iff hour < 12 and PM iff hour >= 12 |
| Vocabulary.HalfDayApart | src/main/java/pl/umanski/vocabulary/BritishTimeVocabulary.java:86 | hours h and h + 12 (h in 1..11) have the same word, and their periods are AM and PM |
| Vocabulary.TokensDistinct | src/main/java/pl/umanski/vocabulary/BritishTimeVocabulary.java:13-43 | the seven tokens are pairwise distinct, and none is a word of either table |
| Vocabulary.VocabularyExamples | src/test/java/pl/umanski/vocabulary/BritishTimeVocabularyTest.java:16-84 | 2 and 14 give "two", 23 gives "eleven", -5, 0, 12 and 24 fail; 15, 30 and 25 give quarter, half and twenty five, and 65 fails; the AM/PM boundaries |
| TimeModel.Make | src/main/java/pl/umanski/model/Time.java:18-21 | construction succeeds iff hour in 0..12 and minute in 0..59, with the fields unchanged; the hour error comes before the minute error |
| TimeModel.MakeFullDay | src/main/java/pl/umanski/model/Time.java:50-54 | the corrected constructor: succeeds iff hour in 0..23 and minute in 0..59, with the same error order |
| TimeModel.MakeWithinFullDay | src/main/java/pl/umanski/model/Time.java:50-54 | every time the written constructor accepts, the corrected one accepts unchanged, and the corrected one also accepts hours 13..23 |
| TimeModel.LateEveningRefused | src/test/java/pl/umanski/model/TimeTest.java:43-48 | 23:59, which the tests treat as valid, is refused by the written constructor with the hour error, and accepted by the corrected one |
| TimeModel.MakeExamples | src/test/java/pl/umanski/model/TimeTest.java:19-78 | 10:30, 0:00 and 12:00 are built unchanged; hours -1 and 24 and minutes -1 and 60 are refused (the 23:59 case of the same tests is TimeModel.LateEveningRefused) |
| TimeModel.PredicatesOfTime | src/main/java/pl/umanski/model/Time.java:26-42 | exact hour iff minute 0, noon iff hour 12, midnight iff hour 0, whatever the other field; never both noon and midnight |
| TimeModel.StructuralEquality | src/main/java/pl/umanski/model/Time.java:10 | two records are equal iff both fields are equal |
| Strategies.HourWithPeriod | src/main/java/pl/umanski/strategy/ToTimeStrategy.java:28-31 | the hour word followed by its period succeeds iff the hour is in 0..23 and is neither 0 nor 12; it then equals the reference hour phrase, and it fails exactly as the hour lookup does |
| Strategies.FormatExactHour | src/main/java/pl/umanski/strategy/ExactHourStrategy.java:20-28 | succeeds iff 0 <= hour <= 23, otherwise fails with the range error; gives exactly "noon" at 12 and "midnight" at 0, and otherwise the cardinal of hour % 12, "o'clock" and the period of the hour |
| Strategies.FormatPast | src/main/java/pl/umanski/strategy/PastTimeStrategy.java:20-30 | succeeds iff the minute has a word and 0 <= hour <= 23; fails with the minute error when the minute has no word, and with the hour-range error when it has one but the hour is outside 0..23; the phrase is the minute name, "past" and the reference hour phrase (noon, midnight or the word with its period) |
| Strategies.FormatDigital | src/main/java/pl/umanski/strategy/DigitalTimeStrategy.java:20-30 | succeeds iff the minute has a word and 0 <= hour <= 23; fails with the minute error when the minute has no word, and with the hour-range error when it has one but the hour is outside 0..23; the phrase is "noon <minute>" at 12, "midnight <minute>" at 0, otherwise "<hour word> <minute> <period>" |
| Strategies.FormatTo | src/main/java/pl/umanski/strategy/ToTimeStrategy.java:20-32 | succeeds iff 60 - minute has a word and 0 <= hour <= 23; fails with the minute error for 60 - minute when that has no word; otherwise, at hour -1 with the not-in-vocabulary error for 0, and outside -1..23 with the range error for hour + 1; the phrase is the name of 60 - minute, "to" and the reference phrase of hour + 1, so 12 is noon, 24 is midnight and the period is that of the next hour |
| Strategies.ExactlyOneRule | src/main/java/pl/umanski/converter/BritishSpokenTimeConverter.java:39-43 | for every minute in 0..59 a rule accepts the time iff it is the rule the minute's range assigns: the four ranges partition the hour |
| Strategies.RulesOutsideHour | src/main/java/pl/umanski/strategy/ToTimeStrategy.java:15-17 | minutes of 60 and more are accepted by the "to" rule alone, and negative minutes by no rule |
| Strategies.MinutesToHaveWords | src/main/java/pl/umanski/strategy/ToTimeStrategy.java:21-23 | under the "to" rule, 60 - minute is 25 or lies in 1..20, so it has a word |
| Strategies.HandledTimeFormats | src/main/java/pl/umanski/converter/BritishSpokenTimeConverter.java:39-42 | for hours 0..23 and minutes 0..59, a rule that accepts the time formats it without failure and yields a non-empty phrase |
| Strategies.FormatFailsOnlyInLookups | src/main/java/pl/umanski/strategy/ExactHourStrategy.java:24-25 | a rule fails only with one of the vocabulary's lookup errors |
| Converter.FirstMatch | src/main/java/pl/umanski/converter/BritishSpokenTimeConverter.java:39-41 | finds the first rule of the list that accepts the time: it accepts it, no earlier rule does, and there is none iff no rule accepts it |
| Converter.FirstMatchIsRuleFor | src/main/java/pl/umanski/converter/BritishSpokenTimeConverter.java:19-24 | with the rules in the order exact hour, past, digital, to, the first match is the rule the minute's range assigns, and there is no match iff the minute is negative |
| Converter.Convert | src/main/java/pl/umanski/converter/BritishSpokenTimeConverter.java:34-44 | a null time fails with the null error; otherwise the result is the format of the rule for the minute; the no-formatter error occurs iff the minute is negative |
| Converter.ConvertTotal | src/main/java/pl/umanski/converter/BritishSpokenTimeConverter.java:34-44 | every time with hour 0..23 and minute 0..59 converts successfully to a non-empty phrase |
| Converter.ConvertConstructedTime | src/main/java/pl/umanski/model/Time.java:18-21 | every time either constructor accepts converts successfully, so neither exception of the converter is reachable from a constructed time |
| Converter.RuleEnding | src/main/java/pl/umanski/strategy/ToTimeStrategy.java:25-31 | the phrase of the rule that accepts a time ends in a letter when the named hour (the next one for "to") is noon or midnight, and otherwise in that hour's " AM" or " PM" |
| Converter.PeriodMarksNamedHour | src/main/java/pl/umanski/strategy/ExactHourStrategy.java:21-27 | a converted time ends in " AM" iff its named hour is not noon or midnight and is before 12, and in " PM" iff it is not noon or midnight and is after 12 |
| LegacyTime.Make | src/main/java/pl/umanski/Time.java:18-45 | construction succeeds iff hour in 0..12 and minute in 0..59, with the fields unchanged; the hour error comes before the minute error |
| LegacyTime.MakeExamples | src/test/java/pl/umanski/TimeTest.java:27-111 | hours -1, 13, -20, 24 and 100 and minutes -1, 60, -20, 61 and 120 are refused; 12:59, 0:00, 12:00 and 10:30 are built unchanged |
| LegacyTime.StructuralEquality | src/main/java/pl/umanski/Time.java:10 | two records are equal iff both fields are equal |
| TimeParser.TrimStartIndex | src/main/java/pl/umanski/TimeParser.java:30 | the first index from `start` that is not a character up to U+0020, with every skipped character being one |
| TimeParser.TrimEndIndex | src/main/java/pl/umanski/TimeParser.java:30 | the last kept end between `start` and `end`, with every dropped character being one up to U+0020 |
| TimeParser.Trim | src/main/java/pl/umanski/TimeParser.java:30 | the trimmed text is no longer than the input, and when non-empty neither starts nor ends with a character up to U+0020 |
| TimeParser.TrimIsInfix | src/main/java/pl/umanski/TimeParser.java:30 | the trimmed text is a contiguous part of the input, and only characters up to U+0020 lie on either side of it |
| TimeParser.TrimSurrounded | src/main/java/pl/umanski/TimeParser.java:30 | trimming a text surrounded by such characters gives back exactly the text |
| TimeParser.TrimIdempotent | src/main/java/pl/umanski/TimeParser.java:30 | trimming twice is trimming once |
| TimeParser.Parse | src/main/java/pl/umanski/TimeParser.java:27-52 | null input fails with the null error; the empty error occurs iff the trimmed input is empty; otherwise the format error occurs iff the pattern does not match; a parsed time has hour 0..12 and minute 0..59 |
| TimeParser.ParseIgnoresSurroundingSpace | src/main/java/pl/umanski/TimeParser.java:30 | parsing the input and parsing its trimmed form give the same result |
| TimeParser.ParseWellFormed | src/main/java/pl/umanski/TimeParser.java:35-37 | text matching the pattern parses to the record built from the decimal values of its two digit groups, so out-of-range values fail with the record's errors |
| TimeParser.TwoDigitsValue | src/main/java/pl/umanski/TimeParser.java:36 | a number 0..99 written with two digits has that decimal value |
| TimeParser.DigitsAreTwoDigits | src/main/java/pl/umanski/TimeParser.java:36 | two digits are the two-digit writing of their decimal value |
| TimeParser.RenderShape | src/main/java/pl/umanski/TimeParser.java:15 | a valid time written as H:MM or HH:MM matches the pattern, and its groups denote the hour and the minute |
| TimeParser.ParseRendered | src/main/java/pl/umanski/TimeParser.java:27-38 | every valid time written as H:MM or HH:MM parses back to itself |
| TimeParser.RoundTrip | src/main/java/pl/umanski/TimeParser.java:27-38 | the same holds with any whitespace before and after the text |
| TimeParser.ParsedIsRendered | src/main/java/pl/umanski/TimeParser.java:15 | conversely, the trimmed form of any input that parses is the writing of the parsed time, padded iff it has five characters |
| LegacyStrategies.HourWord | src/test/java/pl/umanski/BritishTimeVocabularyTest.java:15-25 | the 12-hour hour lookup succeeds iff the hour is in 0..11, otherwise fails; 0 is "twelve" and 1..11 their cardinals |
| LegacyStrategies.DisplayHourWord | src/main/java/pl/umanski/PastTimeStrategy.java:26-30 | "noon" at 12, "midnight" at 0, the cardinal for 1..11; fails outside 0..12 |
| LegacyStrategies.PastFormat | src/main/java/pl/umanski/PastTimeStrategy.java:17-21 | succeeds iff the minute has a word and hour in 0..12; the phrase is the minute name, "past" and the spoken hour, without a period |
| LegacyStrategies.DigitalFormat | src/main/java/pl/umanski/DigitalTimeStrategy.java:17-21 | succeeds iff the minute has a word and hour in 0..12; the phrase is the spoken hour followed by the minute name, without a connector or period |
| LegacyStrategies.RulesDisjoint | src/main/java/pl/umanski/DigitalTimeStrategy.java:12-14 | no time is accepted by both the "past" and the "digital" rule |
| LegacyStrategies.HandledTimeHasNoPeriod | src/main/java/pl/umanski/PastTimeStrategy.java:17-21 | for a constructed time either rule accepts, formatting succeeds and the phrase ends in a letter, never in " AM" or " PM" |
| Examples.ConvertNoonMidnightAndNull | src/test/java/pl/umanski/converter/BritishSpokenTimeConverterTest.java:24-46 | 12:00 is "noon", 0:00 is "midnight", and a null time is refused |
| Examples.ConvertExactHours | src/test/java/pl/umanski/converter/BritishSpokenTimeConverterTest.java:48-59 | 4:00 is "four o'clock AM" and 19:00 "seven o'clock PM"; only the corrected full-day record builds 19:00 |
| Examples.ConvertPastWithPeriod | src/test/java/pl/umanski/converter/BritishSpokenTimeConverterTest.java:67-72 | 4:15 is "quarter past four AM" |
| Examples.PastAfternoon | src/test/java/pl/umanski/strategy/PastTimeStrategyTest.java:42-47 | the "past" rule says 16:30 as "half past four PM"; only the corrected full-day record builds 16:30 |
| Examples.ConvertPastNoon | src/test/java/pl/umanski/converter/BritishSpokenTimeConverterTest.java:88-93 | 12:11 is "eleven past noon" |
| Examples.ConvertPastMidnight | src/test/java/pl/umanski/converter/BritishSpokenTimeConverterTest.java:81-86 | 0:01 is "one past midnight" |
| Examples.ConvertDigitalMorning | src/test/java/pl/umanski/converter/BritishSpokenTimeConverterTest.java:114-125 | 2:32 is "two thirty two AM" |
| Examples.ConvertDigitalAfternoon | src/test/java/pl/umanski/strategy/DigitalTimeStrategyTest.java:50-61 | 16:36 is "four thirty six PM"; only the corrected full-day record builds 16:36 |
| Examples.ConvertDigitalNoon | src/test/java/pl/umanski/strategy/DigitalTimeStrategyTest.java:36-41 | 12:39 is "noon thirty nine" |
| Examples.ConvertToMorning | src/test/java/pl/umanski/converter/BritishSpokenTimeConverterTest.java:133-138 | 7:35 is "twenty five to eight AM" |
| Examples.ConvertToAfternoon | src/test/java/pl/umanski/converter/BritishSpokenTimeConverterTest.java:140-145 | 15:45 is "quarter to four PM"; only the corrected full-day record builds 15:45 |
| Examples.ConvertToNoonAndMidnight | src/test/java/pl/umanski/converter/BritishSpokenTimeConverterTest.java:147-159 | 11:59 is "one to noon" and 23:59 "one to midnight"; only the corrected full-day record builds 23:59 |
| Examples.ConvertToAfterNoonAndMidnight | src/test/java/pl/umanski/converter/BritishSpokenTimeConverterTest.java:161-173 | 12:40 is "twenty to one PM" and 0:40 "twenty to one AM": the period of the next hour |
| Examples.LegacyPastPhrases | src/test/java/pl/umanski/BritishSpokenTimeConverterTest.java:73-92 | 4:15 is "quarter past four" and 0:01 "one past midnight" |
| Examples.LegacyPastNoon | src/test/java/pl/umanski/BritishSpokenTimeConverterTest.java:94-99 | 12:11 is "eleven past noon" |
| Examples.LegacyPastTwentyFive | src/test/java/pl/umanski/BritishSpokenTimeConverterTest.java:100-114 | 6:25 is "twenty five past six" |
| Examples.LegacyDigitalPhrases | src/test/java/pl/umanski/BritishSpokenTimeConverterTest.java:118-137 | 1:31 is "one thirty one" and 8:39 "eight thirty nine" |
| Examples.LegacyHourWords | src/test/java/pl/umanski/BritishTimeVocabularyTest.java:15-53 | hour 0 is "twelve", 11 is "eleven", and 23 fails |
| Examples.ParseRejectsMissingInput | src/main/java/pl/umanski/TimeParser.java:45-52 | null input fails with the null error, and empty or blank input with the empty error |
| Examples.ParseRejectsMalformed | src/main/java/pl/umanski/TimeParser.java:30-33 | "10", "ab:cd" and "test" fail with the format error |
| Examples.ParseRejectsOutOfRange | src/main/java/pl/umanski/TimeParser.java:35-37 | "25:70" is well formed but fails with the record's hour error |
| Examples.ParseIgnoresSpaces | src/main/java/pl/umanski/TimeParser.java:30 | " 10:30 " parses to 10:30 |
| Examples.ParseAcceptsLeadingZero | src/main/java/pl/umanski/TimeParser.java:35-36 | "01:05" parses to 1:05 |
| Examples.ParseAcceptsOneDigitHour | src/main/java/pl/umanski/TimeParser.java:15 | "4:28" parses to 4:28 |

## Left out

- `Main.java`: an interactive loop on standard input and output. It is I/O only.
- The root package's `BritishSpokenTimeConverter.java` dispatches over exact-hour and "to" rule classes of that package. Those classes are not part of this model. Its visible logic is the same as the modelled `converter/BritishSpokenTimeConverter.java`.
- `TimeFormatStrategy.java` and `converter/SpokenTimeConverter.java` are interfaces without behaviour. The `Rule` datatype and `Converter.Convert` play their role.
- The root package's `BritishTimeVocabulary` is not part of this model:
  - its `getHourWord` is modelled by `LegacyStrategies.HourWord` from what its tests fix (0 is "twelve", 1..11 the cardinals, anything else fails);
  - its `getMinuteWord` is taken to use the same minute table as the `vocabulary` package.
- The root `Time.java` declares no `isNoon`/`isMidnight`, although both root strategies call them. The model reads them as hour 12 and hour 0, as in `model/Time.java`.
- The Java regular-expression engine and `Integer.parseInt` are not modelled in general. Only the one pattern of `TimeParser.java:15` is modelled: one or two ASCII digits, a colon, two ASCII digits. Its two groups are read as decimal values, and with at most two digits no overflow can occur.
- `String.trim` is modelled as removing every character up to U+0020 from both ends. Nothing is taken from a library.
- Exception messages, `hashCode`, `toString` and the `Stream` machinery are not modelled. Each error carries the check that failed and the offending value, not the message text.
- Strategies.FormatTo: does not model 32-bit wrap-around of `hour + 1` and `60 - minute`. The hours where it would occur are already refused, so only the value carried by the error differs.
- Strategies.FormatDigital: "no 'past' or 'to' connector" is stated as the exact shape of the phrase, not as a separate lemma about substrings.
- The tests under `parser/` exercise a parser class outside this model, which accepts "19:30". The root `TimeParser` refuses hours above 12 through `Time.java:29-33`, and the model follows it.
- The stale expectation in `strategy/ExactHourStrategyTest.java:50-61` (no AM/PM suffix) is not modelled. The code and the converter tests are followed.

## Findings

| source | as written | input that shows it | evidently intended | confidence | as-written member | corrected member |
|---|---|---|---|---|---|---|
| src/main/java/pl/umanski/model/Time.java:50-54 | the record refuses every hour above 12 | `new Time(23, 59)` fails with the hour error, but the record's and the converter's tests build it and expect "one to midnight" | hours 0..23, the range of the vocabulary's guards and of the "to" rule's `nextHour == 24` case; with it every constructed time converts | high; not executed | TimeModel.LateEveningRefused | TimeModel.MakeFullDay |
