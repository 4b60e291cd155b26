/**
 * Worked inputs of `parse_experience_string`, each derived from the rule
 * lemmas of `StringUtils`.
 */
module ExperienceExamples {
  import opened Wrappers
  import opened Text
  import opened Patterns
  import opened StringUtils

  /** A string no longer than `t` and different from it cannot contain it. */
  lemma NotContainsShort(s: string, t: string)
    requires |s| <= |t| && s != t
    ensures !Contains(s, t)
  {
  }

  lemma NotFresher(t: string)
    requires |t| <= 7 && t != "fresher" && t != "0-1 yrs" && t != "0 yrs"
    ensures !IsFresherText(t)
  {
    NotContainsShort(t, "fresher");
    NotContainsShort(t, "0-1 yrs");
  }

  /* Each worked input is split in two: a lemma about the normalised text
     alone, over character variables, and one fixing the characters. */

  lemma NormaliseFresher()
    ensures Normalise("Fresher") == ['f', 'r', 'e', 's', 'h', 'e', 'r']
  {
    assert Lower("Fresher") == "fresher";
    StripStripped("fresher");
  }

  lemma FresherText(t: string)
    requires t == ['f', 'r', 'e', 's', 'h', 'e', 'r']
    ensures IsFresherText(t)
  {
    assert OccursAt(t, "fresher", 0);
  }

  /** "Fresher" is rule 1. */
  lemma FresherExample()
    ensures ParseExperience("Fresher") == Experience("Fresher", Some(0), Some(0), [EntryLevel, Fresher])
  {
    NormaliseFresher();
    FresherText(Normalise("Fresher"));
    FresherRule("Fresher");
  }

  lemma SingleDigitValue(d: char)
    requires IsDigit(d)
    ensures DigitsValue([d]) == DigitValue(d)
  {
    assert [d][..0] == [];
  }

  lemma PlusOneDigitText(t: string, d: char)
    requires IsDigit(d) && t == [d, '+', ' ', 'y', 'r', 's']
    ensures !IsFresherText(t) && '+' in t
    ensures Search(PlusSuffix, t, 0) == Some(Match(0, [DigitValue(d)]))
  {
    assert t[1] == '+';
    NotFresher(t);
    assert DigitRunEnd(t, 0) == 1 && SpaceRunEnd(t, 1) == 1 && t[0..1] == [d];
    SingleDigitValue(d);
  }

  lemma PlusOneDigit(raw: string, d: char)
    requires IsDigit(d) && Normalise(raw) == [d, '+', ' ', 'y', 'r', 's']
    ensures ParseExperience(raw) == Experience(raw, Some(DigitValue(d)), Some(999), [MidSeniorLevel])
  {
    PlusOneDigitText(Normalise(raw), d);
    PlusRule(raw);
  }

  lemma PlusTwoDigitsText(t: string, d: char, e: char)
    requires IsDigit(d) && IsDigit(e) && t == [d, e, '+', ' ', 'y', 'r', 's']
    ensures !IsFresherText(t) && '+' in t
    ensures Search(PlusSuffix, t, 0) == Some(Match(0, [DigitValue(d) * 10 + DigitValue(e)]))
  {
    assert t[2] == '+';
    NotFresher(t);
    assert DigitRunEnd(t, 2) == 2;
    assert DigitRunEnd(t, 0) == 2 && SpaceRunEnd(t, 2) == 2 && t[0..2] == [d, e];
    assert [d, e][..1] == [d];
    SingleDigitValue(d);
  }

  lemma PlusTwoDigits(raw: string, d: char, e: char)
    requires IsDigit(d) && IsDigit(e) && Normalise(raw) == [d, e, '+', ' ', 'y', 'r', 's']
    ensures var n := DigitValue(d) * 10 + DigitValue(e);
      ParseExperience(raw) == Experience(raw, Some(n), Some(999),
        if n >= 10 then [LeadLevel, SeniorLevel] else [MidSeniorLevel])
  {
    PlusTwoDigitsText(Normalise(raw), d, e);
    PlusRule(raw);
  }

  lemma NormaliseFivePlus()
    ensures Normalise("5+ yrs") == ['5', '+', ' ', 'y', 'r', 's']
  {
    LowerStripClean("5+ yrs");
  }

  /** "5+ yrs" is 5 up to the unbounded sentinel, Mid-Senior Level. */
  lemma FivePlusExample()
    ensures ParseExperience("5+ yrs") == Experience("5+ yrs", Some(5), Some(999), [MidSeniorLevel])
  {
    NormaliseFivePlus();
    PlusOneDigit("5+ yrs", '5');
  }

  lemma NormaliseTwelvePlus()
    ensures Normalise("12+ yrs") == ['1', '2', '+', ' ', 'y', 'r', 's']
  {
    LowerStripClean("12+ yrs");
  }

  /** "12+ yrs" is 12 up to the sentinel, Lead and Senior Level. */
  lemma TwelvePlusExample()
    ensures ParseExperience("12+ yrs") == Experience("12+ yrs", Some(12), Some(999), [LeadLevel, SeniorLevel])
  {
    NormaliseTwelvePlus();
    PlusTwoDigits("12+ yrs", '1', '2');
  }

  lemma RangeDigitsText(t: string, a: char, b: char)
    requires IsDigit(a) && IsDigit(b) && !(a == '0' && b == '1')
    requires t == [a, '-', b, ' ', 'y', 'r', 's']
    ensures !IsFresherText(t) && '+' !in t && '-' in t
    ensures Search(YearRange, t, 0) == Some(Match(0, [DigitValue(a), DigitValue(b)]))
  {
    assert t[1] == '-';
    assert t != "0-1 yrs" by { assert t[0] != '0' || t[2] != '1'; }
    NotFresher(t);
    assert DigitRunEnd(t, 0) == 1 && DigitRunEnd(t, 2) == 3 && SpaceRunEnd(t, 3) == 4;
    assert t[4..7] == "yrs" && t[0..1] == [a] && t[2..3] == [b];
    SingleDigitValue(a);
    SingleDigitValue(b);
  }

  lemma RangeDigits(raw: string, a: char, b: char)
    requires IsDigit(a) && IsDigit(b) && !(a == '0' && b == '1')
    requires Normalise(raw) == [a, '-', b, ' ', 'y', 'r', 's']
    ensures ParseExperience(raw) == Experience(raw, Some(DigitValue(a)), Some(DigitValue(b)),
      var m := DigitValue(b);
      if m <= 2 then [EntryLevel, JuniorLevel]
      else if m <= 5 then [JuniorLevel, MidLevel]
      else if m <= 10 then [MidLevel, MidSeniorLevel]
      else [SeniorLevel])
  {
    RangeDigitsText(Normalise(raw), a, b);
    RangeRule(raw);
  }

  lemma NormaliseThreeToFive()
    ensures Normalise("3-5 Yrs") == ['3', '-', '5', ' ', 'y', 'r', 's']
  {
    assert Lower("3-5 Yrs") == "3-5 yrs";
    StripStripped("3-5 yrs");
  }

  /** "3-5 Yrs" (upper case in the input) is 3 to 5, Junior and Mid Level. */
  lemma ThreeToFiveExample()
    ensures ParseExperience("3-5 Yrs") == Experience("3-5 Yrs", Some(3), Some(5), [JuniorLevel, MidLevel])
  {
    NormaliseThreeToFive();
    RangeDigits("3-5 Yrs", '3', '5');
  }

  lemma NormaliseFiveToThree()
    ensures Normalise("5-3 yrs") == ['5', '-', '3', ' ', 'y', 'r', 's']
  {
    LowerStripClean("5-3 yrs");
  }

  /** "5-3 yrs" keeps minimum 5 and maximum 3: nothing orders the bounds. */
  lemma ReversedRangeExample()
    ensures ParseExperience("5-3 yrs") == Experience("5-3 yrs", Some(5), Some(3), [JuniorLevel, MidLevel])
  {
    NormaliseFiveToThree();
    RangeDigits("5-3 yrs", '5', '3');
  }

  lemma SingleDigitYearsText(t: string, d: char)
    requires IsDigit(d) && d != '0' && t == [d, ' ', 'y', 'r', 's']
    ensures !IsFresherText(t) && '+' !in t && '-' !in t
    ensures Search(SingleYear, t, 0) == Some(Match(0, [DigitValue(d)]))
  {
    NotFresher(t);
    assert DigitRunEnd(t, 0) == 1 && SpaceRunEnd(t, 1) == 2;
    assert t[2..4] == "yr" && t[0..1] == [d];
    SingleDigitValue(d);
  }

  lemma SingleDigitYears(raw: string, d: char)
    requires IsDigit(d) && d != '0' && Normalise(raw) == [d, ' ', 'y', 'r', 's']
    ensures var n := DigitValue(d);
      ParseExperience(raw) == Experience(raw, Some(n), Some(n),
        if n <= 2 then [JuniorLevel] else if n <= 5 then [MidLevel] else [SeniorLevel])
  {
    SingleDigitYearsText(Normalise(raw), d);
    SingleRule(raw);
  }

  lemma NormaliseSeven()
    ensures Normalise("7 yrs") == ['7', ' ', 'y', 'r', 's']
  {
    LowerStripClean("7 yrs");
  }

  /** "7 yrs" is 7..7 and tagged Senior Level by the single-year thresholds. */
  lemma SevenYearsExample()
    ensures ParseExperience("7 yrs") == Experience("7 yrs", Some(7), Some(7), [SeniorLevel])
  {
    NormaliseSeven();
    SingleDigitYears("7 yrs", '7');
  }

  /** Text without digits, "+" or "-" that is not fresher text parses to nothing. */
  lemma NoDigits(raw: string)
    requires !IsFresherText(Normalise(raw))
    requires forall i :: 0 <= i < |Normalise(raw)| ==> !IsDigit(Normalise(raw)[i]) && Normalise(raw)[i] !in "+-"
    ensures ParseExperience(raw) == Experience(raw, None, None, [])
  {
    SingleRule(raw);
  }

  lemma NormaliseGarbage()
    ensures Normalise("garbage") == "garbage"
  {
    LowerStripClean("garbage");
  }

  lemma GarbageText(t: string)
    requires t == "garbage"
    ensures !IsFresherText(t)
    ensures forall i :: 0 <= i < |t| ==> !IsDigit(t[i]) && t[i] !in "+-"
  {
    NotFresher(t);
  }

  /** Text with no digits parses to nothing. */
  lemma GarbageExample()
    ensures ParseExperience("garbage") == Experience("garbage", None, None, [])
  {
    NormaliseGarbage();
    GarbageText("garbage");
    NoDigits("garbage");
  }

  lemma PlusBeforeDigitText(t: string, d: char)
    requires IsDigit(d) && t == ['+', d, ' ', 'y', 'r', 's']
    ensures !IsFresherText(t) && '+' in t
    ensures Search(PlusSuffix, t, 0).None?
  {
    assert t[0] == '+';
    NotFresher(t);
    assert DigitRunEnd(t, 1) == 2 && SpaceRunEnd(t, 2) == 3;
    assert forall i :: 2 <= i < |t| ==> !IsDigit(t[i]);
  }

  lemma PlusBeforeDigit(raw: string, d: char)
    requires IsDigit(d) && Normalise(raw) == ['+', d, ' ', 'y', 'r', 's']
    ensures ParseExperience(raw) == Experience(raw, None, None, [])
  {
    PlusBeforeDigitText(Normalise(raw), d);
    PlusRule(raw);
  }

  lemma NormalisePlusFive()
    ensures Normalise("+5 yrs") == ['+', '5', ' ', 'y', 'r', 's']
  {
    LowerStripClean("+5 yrs");
  }

  /** "+5 yrs": a "+" with no digits before it parses to nothing, with no fallback. */
  lemma PlusWithoutNumberExample()
    ensures ParseExperience("+5 yrs") == Experience("+5 yrs", None, None, [])
  {
    NormalisePlusFive();
    PlusBeforeDigit("+5 yrs", '5');
  }
}
