/** Facts about how spoken phrases end, used to locate the AM/PM suffix. */
module Phrases {

  import opened Numerals

  predicate EndsWith(s: string, suffix: string) {
    |suffix| <= |s| && s[|s| - |suffix|..] == suffix
  }

  predicate EndsInLetter(s: string) {
    |s| > 0 && 'a' <= s[|s| - 1] <= 'z'
  }

  /** A phrase that ends in a lower-case letter carries no period. */
  lemma LetterIsNoPeriod(s: string)
    requires EndsInLetter(s)
    ensures !EndsWith(s, " AM") && !EndsWith(s, " PM")
  {
    if |s| >= 3 {
      assert s[|s| - 3..][2] == s[|s| - 1];
    }
  }

  /** Every spoken number ends in a lower-case letter. */
  lemma NumeralsEndInLetter(n: int)
    requires 1 <= n <= 59
    ensures EndsInLetter(Cardinal(n)) && EndsInLetter(MinuteName(n))
  {
    assert forall i :: 0 <= i < |UnitWords| ==> EndsInLetter(UnitWords[i]);
    assert forall i :: 0 <= i < |TeenWords| ==> EndsInLetter(TeenWords[i]);
    assert forall i :: 0 <= i < |TensWords| ==> EndsInLetter(TensWords[i]);
  }

  /** The period suffix of a 24-hour clock hour, a space included. */
  function PeriodSuffix(hour: int): string {
    if hour < 12 then " AM" else " PM"
  }

  /** Whether an hour 0..24 of a 24-hour clock is noon or midnight. */
  predicate IsNoonOrMidnight(hour: int) {
    hour == 0 || hour == 12 || hour == 24
  }

  /** How a phrase ends that names the 24-hour clock hour `named`: in a
      letter for noon or midnight, otherwise in the hour's period suffix. */
  predicate EndsAsNamed(s: string, named: int) {
    if IsNoonOrMidnight(named) then EndsInLetter(s) else EndsWith(s, PeriodSuffix(named))
  }

  /** A space followed by the hour's period ends the phrase as that hour demands. */
  lemma SpaceThenPeriod(a: string, named: int)
    requires |a| > 0 && a[|a| - 1] == ' ' && !IsNoonOrMidnight(named)
    ensures EndsAsNamed(a + PeriodName(named), named)
  {
    var s := a + PeriodName(named);
    assert s[|s| - 3..] == [a[|a| - 1]] + PeriodName(named);
  }

  /** Words put in front of a phrase do not change how it ends. */
  lemma AppendKeepsEnding(a: string, b: string, named: int)
    requires EndsAsNamed(b, named)
    ensures EndsAsNamed(a + b, named)
  {
    var s := a + b;
    if !IsNoonOrMidnight(named) {
      var suffix := PeriodSuffix(named);
      assert |suffix| == 3;
      assert s[|s| - 3..] == b[|b| - 3..];
    } else {
      assert s[|s| - 1] == b[|b| - 1];
    }
  }

  /** Words put in front of a phrase ending in a letter leave it ending in that letter. */
  lemma AppendKeepsLetter(a: string, b: string)
    requires EndsInLetter(b)
    ensures EndsInLetter(a + b)
  {
    assert (a + b)[|a + b| - 1] == b[|b| - 1];
  }
}
