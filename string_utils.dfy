/**
 * `parse_experience_string`: turns listing text such as "3-5 Yrs",
 * "5+ yrs", "Fresher" or "2 yrs" into the raw text, minimum and maximum
 * years, and a sorted, duplicate-free list of seniority tags.
 */
module StringUtils {
  import opened Wrappers
  import opened Text
  import opened LexOrder
  import opened Patterns

  const EntryLevel := "Entry Level"
  const Fresher := "Fresher"
  const JuniorLevel := "Junior Level"
  const MidLevel := "Mid Level"
  const MidSeniorLevel := "Mid-Senior Level"
  const SeniorLevel := "Senior Level"
  const LeadLevel := "Lead Level"

  /** Upper bound recorded for "N+ yrs": there is no real maximum. */
  const NoUpperBound: nat := 999

  /** The dictionary returned by `parse_experience_string`. */
  datatype Experience = Experience(
    raw: string,
    minYears: Option<nat>,
    maxYears: Option<nat>,
    levels: seq<string>)

  /** The years and the tags gathered in `level_keywords` by the if/elif ladder. */
  datatype Ladder = Ladder(minYears: Option<nat>, maxYears: Option<nat>, keywords: seq<string>)

  /** `exp_str.lower().strip()`. */
  function Normalise(s: string): string {
    Strip(Lower(s))
  }

  predicate IsFresherText(t: string) {
    Contains(t, "fresher") || Contains(t, "0-1 yrs") || t == "0 yrs"
  }

  function PlusKeywords(n: nat): seq<string> {
    if n >= 10 then [SeniorLevel, LeadLevel] else [MidSeniorLevel]
  }

  function RangeKeywords(max: nat): seq<string> {
    if max <= 2 then [EntryLevel, JuniorLevel]
    else if max <= 5 then [JuniorLevel, MidLevel]
    else if max <= 10 then [MidLevel, MidSeniorLevel]
    else [SeniorLevel]
  }

  function SingleKeywords(n: nat): seq<string> {
    if n == 0 then [EntryLevel, Fresher]
    else if n <= 2 then [JuniorLevel]
    else if n <= 5 then [MidLevel]
    else [SeniorLevel]
  }

  /** The "ensure some level keyword" fallback, keyed by the minimum. */
  function FallbackKeyword(min: nat): string {
    if min == 0 then EntryLevel
    else if min <= 2 then JuniorLevel
    else if min <= 5 then MidLevel
    else if min <= 10 then MidSeniorLevel
    else SeniorLevel
  }

  /** The if/elif ladder over the normalised text `t`; first matching rule wins. */
  function RunLadder(t: string): (l: Ladder)
    ensures l.minYears.None? <==> l.maxYears.None?
  {
    if IsFresherText(t) then Ladder(Some(0), Some(0), [EntryLevel, Fresher])
    else if '+' in t then
      match Search(PlusSuffix, t, 0)
      case Some(m) => Ladder(Some(m.groups[0]), Some(NoUpperBound), PlusKeywords(m.groups[0]))
      case None => Ladder(None, None, [])
    else if '-' in t then
      match Search(YearRange, t, 0)
      case Some(m) => Ladder(Some(m.groups[0]), Some(m.groups[1]), RangeKeywords(m.groups[1]))
      case None => Ladder(None, None, [])
    else
      match Search(SingleYear, t, 0)
      case Some(m) => Ladder(Some(m.groups[0]), Some(m.groups[0]), SingleKeywords(m.groups[0]))
      case None => Ladder(None, None, [])
  }

  /** `parse_experience_string(exp_str)`. */
  function ParseExperience(raw: string): (r: Experience)
    ensures r.raw == raw
    ensures StrictlySorted(r.levels)
    ensures r.minYears.None? <==> r.maxYears.None?
    ensures r.minYears.Some? <==> r.levels != []
  {
    var l := RunLadder(Normalise(raw));
    var keywords :=
      if l.keywords == [] && l.minYears.Some? then [FallbackKeyword(l.minYears.value)] else l.keywords;
    LadderTagsIffYears(Normalise(raw));
    assert keywords != [] ==> keywords[0] in SortedSet(keywords);
    Experience(raw, l.minYears, l.maxYears, SortedSet(keywords))
  }

  /**
   * Every rule of the ladder that records years also records at least one
   * tag, and none records tags without years; so the fallback that adds a
   * tag when years were found but no tag was never takes effect.
   */
  lemma LadderTagsIffYears(t: string)
    ensures RunLadder(t).minYears.Some? <==> RunLadder(t).keywords != []
  {
  }

  /** "Mid Level" sorts before "Mid-Senior Level": a space is below a hyphen. */
  lemma MidBeforeMidSenior()
    ensures Less(MidLevel, MidSeniorLevel)
  {
    assert MidLevel[3..] == " Level" && MidSeniorLevel[3..] == "-Senior Level";
    assert Less(MidLevel[3..], MidSeniorLevel[3..]);
    assert MidLevel[2..][1..] == MidLevel[3..] && MidSeniorLevel[2..][1..] == MidSeniorLevel[3..];
    assert Less(MidLevel[2..], MidSeniorLevel[2..]);
    assert MidLevel[1..][1..] == MidLevel[2..] && MidSeniorLevel[1..][1..] == MidSeniorLevel[2..];
    assert Less(MidLevel[1..], MidSeniorLevel[1..]);
  }

  /** With the fallback out of the way, the result is the ladder's years and its canonical tag list. */
  lemma ParseFromLadder(raw: string)
    ensures var l := RunLadder(Normalise(raw));
      ParseExperience(raw) == Experience(raw, l.minYears, l.maxYears, SortedSet(l.keywords))
  {
    LadderTagsIffYears(Normalise(raw));
  }

  lemma TagListsSorted()
    ensures StrictlySorted([EntryLevel, Fresher])
    ensures StrictlySorted([LeadLevel, SeniorLevel])
    ensures StrictlySorted([EntryLevel, JuniorLevel])
    ensures StrictlySorted([JuniorLevel, MidLevel])
    ensures StrictlySorted([MidLevel, MidSeniorLevel])
  {
    FirstLetterOrder(EntryLevel, Fresher);
    FirstLetterOrder(LeadLevel, SeniorLevel);
    FirstLetterOrder(EntryLevel, JuniorLevel);
    FirstLetterOrder(JuniorLevel, MidLevel);
    MidBeforeMidSenior();
  }

  lemma FirstLetterOrder(a: string, b: string)
    requires a != [] && b != [] && a[0] < b[0]
    ensures StrictlySorted([a, b])
  {
    assert Less(a, b);
  }

  /**
   * Sorting the '+' rule's tags reorders them: for N >= 10 the recorded
   * [Senior Level, Lead Level] comes out as [Lead Level, Senior Level].
   */
  lemma PlusLevels(n: nat)
    ensures SortedSet(PlusKeywords(n)) == if n >= 10 then [LeadLevel, SeniorLevel] else [MidSeniorLevel]
  {
    TagListsSorted();
    if n >= 10 {
      SortedSetOfSorted([LeadLevel, SeniorLevel]);
      StrictlySortedUnique(SortedSet([SeniorLevel, LeadLevel]), [LeadLevel, SeniorLevel]);
    } else {
      SortedSetOfSorted([MidSeniorLevel]);
    }
  }

  /** The range rule's tags are already in canonical order. */
  lemma RangeLevels(b: nat)
    ensures SortedSet(RangeKeywords(b)) == RangeKeywords(b)
  {
    TagListsSorted();
    SortedSetOfSorted(RangeKeywords(b));
  }

  /** The single-year rule's tags are already in canonical order. */
  lemma SingleLevels(n: nat)
    ensures SortedSet(SingleKeywords(n)) == SingleKeywords(n)
  {
    TagListsSorted();
    SortedSetOfSorted(SingleKeywords(n));
  }

  /** Rule 1: fresher text gives 0..0 and the tags Entry Level and Fresher. */
  lemma FresherRule(raw: string)
    requires IsFresherText(Normalise(raw))
    ensures ParseExperience(raw) == Experience(raw, Some(0), Some(0), [EntryLevel, Fresher])
  {
    TagListsSorted();
    SortedSetOfSorted([EntryLevel, Fresher]);
  }

  /**
   * Rule 2, tried before the range rule: with a "+" in the text, the first
   * digit run followed (after optional whitespace) by "+" is the minimum and
   * the maximum is 999; when no digit run precedes a "+" nothing is parsed,
   * and the single-year pattern is not tried.
   */
  lemma PlusRule(raw: string)
    requires !IsFresherText(Normalise(raw)) && '+' in Normalise(raw)
    ensures match Search(PlusSuffix, Normalise(raw), 0)
      case Some(m) =>
        var n := m.groups[0];
        ParseExperience(raw) == Experience(raw, Some(n), Some(999),
          if n >= 10 then [LeadLevel, SeniorLevel] else [MidSeniorLevel])
      case None => ParseExperience(raw) == Experience(raw, None, None, [])
  {
    var t := Normalise(raw);
    ParseFromLadder(raw);
    if Search(PlusSuffix, t, 0).Some? {
      PlusLevels(Search(PlusSuffix, t, 0).value.groups[0]);
    }
  }

  /**
   * Rule 3: with a "-" but no "+", "A-B yrs" gives minimum A and maximum B,
   * tagged by B alone; nothing orders A and B. Without a match nothing is
   * parsed and the single-year pattern is not tried.
   */
  lemma RangeRule(raw: string)
    requires !IsFresherText(Normalise(raw)) && '+' !in Normalise(raw) && '-' in Normalise(raw)
    ensures match Search(YearRange, Normalise(raw), 0)
      case Some(m) =>
        var (a, b) := (m.groups[0], m.groups[1]);
        ParseExperience(raw) == Experience(raw, Some(a), Some(b),
          if b <= 2 then [EntryLevel, JuniorLevel]
          else if b <= 5 then [JuniorLevel, MidLevel]
          else if b <= 10 then [MidLevel, MidSeniorLevel]
          else [SeniorLevel])
      case None => ParseExperience(raw) == Experience(raw, None, None, [])
  {
    var t := Normalise(raw);
    ParseFromLadder(raw);
    if Search(YearRange, t, 0).Some? {
      RangeLevels(Search(YearRange, t, 0).value.groups[1]);
    }
  }

  /**
   * Rule 4: with neither "+" nor "-", "N yr" or "N yrs" gives N..N, tagged
   * Entry Level and Fresher for 0, Junior up to 2, Mid up to 5 and Senior
   * above (so "7 yrs" is Senior Level).
   */
  lemma SingleRule(raw: string)
    requires !IsFresherText(Normalise(raw)) && '+' !in Normalise(raw) && '-' !in Normalise(raw)
    ensures match Search(SingleYear, Normalise(raw), 0)
      case Some(m) =>
        var n := m.groups[0];
        ParseExperience(raw) == Experience(raw, Some(n), Some(n),
          if n == 0 then [EntryLevel, Fresher]
          else if n <= 2 then [JuniorLevel]
          else if n <= 5 then [MidLevel]
          else [SeniorLevel])
      case None => ParseExperience(raw) == Experience(raw, None, None, [])
  {
    var t := Normalise(raw);
    ParseFromLadder(raw);
    if Search(SingleYear, t, 0).Some? {
      SingleLevels(Search(SingleYear, t, 0).value.groups[0]);
    }
  }
}
