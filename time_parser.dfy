/** The parser of the 12-hour variant: trims the input, accepts one or two
    decimal digits, a colon and exactly two digits, and builds a `Time`. */
module TimeParser {

  import opened Wrappers
  import opened Errors
  import opened LegacyTime

  /** The characters String.trim removes: every code point up to U+0020. */
  predicate IsTrimmed(c: char) {
    c <= ' '
  }

  predicate AllTrimmed(s: string) {
    forall i :: 0 <= i < |s| ==> IsTrimmed(s[i])
  }

  /** What `\d` matches in a pattern without Unicode character classes. */
  predicate IsDigit(c: char) {
    '0' <= c <= '9'
  }

  /** The first index from `start` on that trimming keeps. */
  function TrimStartIndex(s: string, start: nat): (i: nat)
    requires start <= |s|
    ensures start <= i <= |s|
    ensures forall k :: start <= k < i ==> IsTrimmed(s[k])
    ensures i == |s| || !IsTrimmed(s[i])
    decreases |s| - start
  {
    if start < |s| && IsTrimmed(s[start]) then TrimStartIndex(s, start + 1) else start
  }

  /** The end, between `start` and `end`, that trimming keeps. */
  function TrimEndIndex(s: string, start: nat, end: nat): (j: nat)
    requires start <= end <= |s|
    ensures start <= j <= end
    ensures forall k :: j <= k < end ==> IsTrimmed(s[k])
    ensures j == start || !IsTrimmed(s[j - 1])
  {
    if start < end && IsTrimmed(s[end - 1]) then TrimEndIndex(s, start, end - 1) else end
  }

  /** String.trim: the input without its leading and trailing characters up to U+0020. */
  function Trim(s: string): (r: string)
    ensures |r| <= |s|
    ensures r == [] || (!IsTrimmed(r[0]) && !IsTrimmed(r[|r| - 1]))
  {
    var i := TrimStartIndex(s, 0);
    var j := TrimEndIndex(s, i, |s|);
    s[i..j]
  }

  /** Trimming keeps a contiguous part of the input and drops only
      characters up to U+0020 on either side of it. */
  lemma TrimIsInfix(s: string)
    ensures exists i, j :: && 0 <= i <= j <= |s| && Trim(s) == s[i..j]
                           && (forall k :: 0 <= k < i ==> IsTrimmed(s[k]))
                           && (forall k :: j <= k < |s| ==> IsTrimmed(s[k]))
  {
    var i := TrimStartIndex(s, 0);
    var j := TrimEndIndex(s, i, |s|);
    assert Trim(s) == s[i..j];
  }

  /** The pattern `^(\d{1,2}):(\d{2})$` over the whole trimmed input. */
  predicate MatchesTimePattern(s: string) {
    && (|s| == 4 || |s| == 5)
    && s[|s| - 3] == ':'
    && (forall i :: 0 <= i < |s| - 3 ==> IsDigit(s[i]))
    && IsDigit(s[|s| - 2]) && IsDigit(s[|s| - 1])
  }

  function DigitValue(c: char): (d: nat)
    requires IsDigit(c)
    ensures d <= 9
  {
    c as int - '0' as int
  }

  /** Integer.parseInt on a string of decimal digits. */
  function DecimalValue(ds: string): (n: nat)
    requires forall i :: 0 <= i < |ds| ==> IsDigit(ds[i])
  {
    if ds == [] then 0
    else DecimalValue(ds[..|ds| - 1]) * 10 + DigitValue(ds[|ds| - 1])
  }

  function Parse(input: Option<string>): (r: Result<Time, Error>)
    ensures input.None? ==> r == Failure(NullInput)
    ensures input.Some? ==> (r == Failure(EmptyInput) <==> Trim(input.value) == [])
    ensures input.Some? && Trim(input.value) != [] ==>
              (r == Failure(InvalidFormat) <==> !MatchesTimePattern(Trim(input.value)))
    ensures r.Success? ==> 0 <= r.value.hour <= 12 && 0 <= r.value.minute <= 59
  {
    match input
    case None => Failure(NullInput)
    case Some(s) =>
      var trimmed := Trim(s);
      if trimmed == [] then Failure(EmptyInput)
      else if !MatchesTimePattern(trimmed) then Failure(InvalidFormat)
      else
        var hour := DecimalValue(trimmed[..|trimmed| - 3]);
        var minute := DecimalValue(trimmed[|trimmed| - 2..]);
        Make(hour, minute)
  }

  lemma {:induction false} TrimStartSkips(s: string, start: nat, stop: nat)
    requires start <= stop <= |s|
    requires forall k :: start <= k < stop ==> IsTrimmed(s[k])
    requires stop == |s| || !IsTrimmed(s[stop])
    ensures TrimStartIndex(s, start) == stop
    decreases stop - start
  {
    if start < stop {
      TrimStartSkips(s, start + 1, stop);
    }
  }

  lemma {:induction false} TrimEndSkips(s: string, start: nat, end: nat, stop: nat)
    requires start <= stop <= end <= |s|
    requires forall k :: stop <= k < end ==> IsTrimmed(s[k])
    requires stop == start || !IsTrimmed(s[stop - 1])
    ensures TrimEndIndex(s, start, end) == stop
    decreases end - stop
  {
    if stop < end {
      TrimEndSkips(s, start, end - 1, stop);
    }
  }

  /** Trimming removes exactly the surrounding characters up to U+0020 from
      a text that does not itself start or end with one. */
  lemma TrimSurrounded(lead: string, core: string, trail: string)
    requires AllTrimmed(lead) && AllTrimmed(trail)
    requires core != [] && !IsTrimmed(core[0]) && !IsTrimmed(core[|core| - 1])
    ensures Trim(lead + core + trail) == core
  {
    var s := lead + core + trail;
    var i, j := |lead|, |lead| + |core|;
    assert s[i] == core[0] && s[j - 1] == core[|core| - 1];
    TrimStartSkips(s, 0, i);
    TrimEndSkips(s, i, |s|, j);
    assert s[i..j] == core;
  }

  /** Trimming twice is trimming once. */
  lemma TrimIdempotent(s: string)
    ensures Trim(Trim(s)) == Trim(s)
  {
    var r := Trim(s);
    if r != [] {
      assert [] + r + [] == r;
      TrimSurrounded([], r, []);
    } else {
      assert TrimEndIndex(r, 0, 0) == 0;
    }
  }

  /** Leading and trailing whitespace never changes what is parsed. */
  lemma ParseIgnoresSurroundingSpace(s: string)
    ensures Parse(Some(s)) == Parse(Some(Trim(s)))
  {
    TrimIdempotent(s);
  }

  function DigitChar(d: int): (c: char)
    requires 0 <= d <= 9
    ensures IsDigit(c) && DigitValue(c) == d
  {
    ('0' as int + d) as char
  }

  function TwoDigits(n: int): (s: string)
    requires 0 <= n <= 99
  {
    [DigitChar(n / 10), DigitChar(n % 10)]
  }

  /** A clock time written as H:MM, or as HH:MM when `padded` or when the
      hour has two digits. */
  function Render(hour: int, minute: int, padded: bool): string
    requires 0 <= hour <= 99 && 0 <= minute <= 99
  {
    (if padded || hour >= 10 then TwoDigits(hour) else [DigitChar(hour)]) + ":" + TwoDigits(minute)
  }

  lemma TwoDigitsValue(n: int)
    requires 0 <= n <= 99
    ensures forall i :: 0 <= i < 2 ==> IsDigit(TwoDigits(n)[i])
    ensures DecimalValue(TwoDigits(n)) == n
  {
    var s := TwoDigits(n);
    assert s[..1] == [s[0]];
    assert [s[0]][..0] == [];
    assert DecimalValue(s[..1]) == n / 10;
    assert DecimalValue(s) == (n / 10) * 10 + n % 10;
  }

  /** The value of a two-digit group. */
  lemma TwoDigitValue(s: string)
    requires |s| == 2 && IsDigit(s[0]) && IsDigit(s[1])
    ensures DecimalValue(s) == DigitValue(s[0]) * 10 + DigitValue(s[1])
  {
    assert s[..1] == [s[0]];
    assert [s[0]][..0] == [];
    assert DecimalValue(s[..1]) == DigitValue(s[0]);
  }

  lemma DigitsAreTwoDigits(s: string)
    requires |s| == 2 && IsDigit(s[0]) && IsDigit(s[1])
    ensures DecimalValue(s) <= 99 && TwoDigits(DecimalValue(s)) == s
  {
    TwoDigitValue(s);
    var a, b := DigitValue(s[0]), DigitValue(s[1]);
    assert (a * 10 + b) / 10 == a && (a * 10 + b) % 10 == b;
    assert DigitChar(a) == s[0] && DigitChar(b) == s[1];
  }

  lemma DigitIsOneDigit(s: string)
    requires |s| == 1 && IsDigit(s[0])
    ensures DecimalValue(s) <= 9 && [DigitChar(DecimalValue(s))] == s
  {
    assert s[..0] == [];
  }

  /** A text that neither starts nor ends with whitespace is its own trimming. */
  lemma TrimKeeps(s: string)
    requires s != [] && !IsTrimmed(s[0]) && !IsTrimmed(s[|s| - 1])
    ensures Trim(s) == s
  {
    TrimStartSkips(s, 0, 0);
    TrimEndSkips(s, 0, |s|, |s|);
  }

  /** An untrimmed text of the right shape parses to the time its digit
      groups denote, if the constructor accepts it. */
  lemma ParseWellFormed(s: string)
    requires MatchesTimePattern(s)
    ensures Parse(Some(s)) == Make(DecimalValue(s[..|s| - 3]), DecimalValue(s[|s| - 2..]))
  {
    TrimKeeps(s);
  }

  /** The rendering has the accepted shape, and its digit groups denote the
      hour and the minute. */
  lemma RenderShape(hour: int, minute: int, padded: bool)
    requires 0 <= hour <= 12 && 0 <= minute <= 59
    ensures var text := Render(hour, minute, padded);
      && MatchesTimePattern(text)
      && DecimalValue(text[..|text| - 3]) == hour
      && DecimalValue(text[|text| - 2..]) == minute
  {
    var text := Render(hour, minute, padded);
    var hourText := if padded || hour >= 10 then TwoDigits(hour) else [DigitChar(hour)];
    TwoDigitsValue(minute);
    if padded || hour >= 10 {
      TwoDigitsValue(hour);
    } else {
      assert [DigitChar(hour)][..0] == [];
    }
    assert text == hourText + ":" + TwoDigits(minute);
    assert text[..|text| - 3] == hourText;
    assert text[|text| - 2..] == TwoDigits(minute);
  }

  /** Every valid time, written as H:MM or HH:MM, parses back to itself. */
  lemma ParseRendered(hour: int, minute: int, padded: bool)
    requires 0 <= hour <= 12 && 0 <= minute <= 59
    ensures Parse(Some(Render(hour, minute, padded))) == Success(Time(hour, minute))
  {
    RenderShape(hour, minute, padded);
    ParseWellFormed(Render(hour, minute, padded));
  }

  /** The same holds with any whitespace around the rendering. */
  lemma RoundTrip(hour: int, minute: int, padded: bool, lead: string, trail: string)
    requires 0 <= hour <= 12 && 0 <= minute <= 59
    requires AllTrimmed(lead) && AllTrimmed(trail)
    ensures Parse(Some(lead + Render(hour, minute, padded) + trail)) == Success(Time(hour, minute))
  {
    var text := Render(hour, minute, padded);
    RenderShape(hour, minute, padded);
    TrimSurrounded(lead, text, trail);
    ParseIgnoresSurroundingSpace(lead + text + trail);
    ParseRendered(hour, minute, padded);
  }

  /** Conversely, whatever parses is such a rendering of the parsed time,
      surrounded by whitespace. */
  lemma ParsedIsRendered(s: string)
    requires Parse(Some(s)).Success?
    ensures var t := Parse(Some(s)).value;
      Trim(s) == Render(t.hour, t.minute, |Trim(s)| == 5)
  {
    var text := Trim(s);
    var hourText := text[..|text| - 3];
    var minuteText := text[|text| - 2..];
    DigitsAreTwoDigits(minuteText);
    if |text| == 5 {
      DigitsAreTwoDigits(hourText);
    } else {
      DigitIsOneDigit(hourText);
    }
    assert text == hourText + ":" + minuteText;
  }
}
