/** The exceptions the spoken-time code throws, one constructor per distinct
    throw site (Java signals all of them with IllegalArgumentException except
    the converter's IllegalStateException). */
module Errors {

  datatype Error =
    // BritishTimeVocabulary.getTwelveHourFormatWord: hour outside 0..23
    | HourOutOfRange(hour: int)
    // hour (or its 12-hour form) has no entry in the hour table
    | HourNotInVocabulary(hour: int)
    // BritishTimeVocabulary.getMinuteWord: minute has no entry in the minute table
    | MinuteNotInVocabulary(minute: int)
    // BritishTimeVocabulary.getPeriod: hour outside 0..23
    | InvalidPeriodHour(hour: int)
    // Time record constructors
    | InvalidTimeHour(hour: int)
    | InvalidTimeMinute(minute: int)
    // BritishSpokenTimeConverter.convert given null
    | NullTime
    // BritishSpokenTimeConverter.convert: no strategy accepted the time (IllegalStateException)
    | NoFormatter(hour: int, minute: int)
    // TimeParser.parse
    | NullInput
    | EmptyInput
    | InvalidFormat
  {
    /** A failed vocabulary lookup. */
    predicate IsLookupError() {
      HourOutOfRange? || HourNotInVocabulary? || MinuteNotInVocabulary? || InvalidPeriodHour?
    }
  }
}
