/** Reference definitions of British spoken numbers, written independently of
    the vocabulary tables so that the tables can be checked against them. */
module Numerals {

  const UnitWords: seq<string> := ["one", "two", "three", "four", "five", "six", "seven", "eight", "nine"]
  const TeenWords: seq<string> :=
    ["ten", "eleven", "twelve", "thirteen", "fourteen", "fifteen", "sixteen", "seventeen", "eighteen", "nineteen"]
  const TensWords: seq<string> := ["twenty", "thirty", "forty", "fifty"]

  /** The cardinal number n spelled out, tens and units separated by a space. */
  function Cardinal(n: int): (r: string)
    requires 1 <= n <= 59
    ensures |r| > 0
  {
    if n < 10 then UnitWords[n - 1]
    else if n < 20 then TeenWords[n - 10]
    else TensWords[n / 10 - 2] + (if n % 10 == 0 then "" else " " + UnitWords[n % 10 - 1])
  }

  /** How a number of minutes is said before "past" or "to": a quarter and a
      half have their own names, every other count is its cardinal. */
  function MinuteName(n: int): (r: string)
    requires 1 <= n <= 59
    ensures |r| > 0
  {
    if n == 15 then "quarter" else if n == 30 then "half" else Cardinal(n)
  }

  /** The period of a 24-hour clock hour: before noon or after it. */
  function PeriodName(hour: int): string {
    if hour < 12 then "AM" else "PM"
  }
}
