/**
 * The three regular expressions of the experience normaliser, each run
 * with `re.search` (leftmost match) over an ASCII string:
 *   `(\d+)\s*\+`, `(\d+)\s*-\s*(\d+)\s*yrs` and `(\d+)\s*yr(?:s)?`.
 * Every quantifier in them is followed by a character its class excludes,
 * so backtracking never helps: each `\d+` and `\s*` takes its maximal run.
 */
module Patterns {
  import opened Wrappers
  import opened Text

  datatype Pattern =
    | PlusSuffix   // (\d+)\s*\+
    | YearRange    // (\d+)\s*-\s*(\d+)\s*yrs
    | SingleYear   // (\d+)\s*yr(?:s)?

  /** Where a leftmost match starts and the integer value of each group. */
  datatype Match = Match(start: nat, groups: seq<nat>)

  /** End of the maximal run of digits that starts at `i`. */
  function DigitRunEnd(s: string, i: nat): (j: nat)
    requires i <= |s|
    ensures i <= j <= |s|
    ensures j == |s| || !IsDigit(s[j])
    decreases |s| - i
  {
    if i < |s| && IsDigit(s[i]) then DigitRunEnd(s, i + 1) else i
  }

  /** Everything from `i` up to the end of its digit run is a digit. */
  lemma {:induction false} DigitRunDigits(s: string, i: nat)
    requires i <= |s|
    ensures AllDigits(s[i..DigitRunEnd(s, i)])
    decreases |s| - i
  {
    if i < |s| && IsDigit(s[i]) {
      DigitRunDigits(s, i + 1);
      assert s[i..DigitRunEnd(s, i)] == [s[i]] + s[i + 1..DigitRunEnd(s, i + 1)];
    }
  }

  /** End of the maximal run of whitespace that starts at `i`. */
  function SpaceRunEnd(s: string, i: nat): (j: nat)
    requires i <= |s|
    ensures i <= j <= |s|
    ensures j == |s| || !IsSpace(s[j])
    decreases |s| - i
  {
    if i < |s| && IsSpace(s[i]) then SpaceRunEnd(s, i + 1) else i
  }

  /** Everything from `i` up to the end of its whitespace run is whitespace. */
  lemma {:induction false} SpaceRunSpaces(s: string, i: nat)
    requires i <= |s|
    ensures AllSpaces(s[i..SpaceRunEnd(s, i)])
    decreases |s| - i
  {
    if i < |s| && IsSpace(s[i]) {
      SpaceRunSpaces(s, i + 1);
      assert s[i..SpaceRunEnd(s, i)] == [s[i]] + s[i + 1..SpaceRunEnd(s, i + 1)];
    }
  }

  /** The value of the digit run starting at `i` (`int(match.group(n))`). */
  function RunValue(s: string, i: nat): nat
    requires i <= |s|
  {
    DigitRunDigits(s, i);
    DigitsValue(s[i..DigitRunEnd(s, i)])
  }

  /**
   * The rest of `p` after its first group and the whitespace that follows
   * it, from position `j`; `first` is the value of that group.
   */
  function MatchFrom(p: Pattern, s: string, j: nat, first: nat): (r: Option<seq<nat>>)
    requires j <= |s|
    ensures r.Some? ==> r.value != [] && r.value[0] == first
    ensures r.Some? ==> |r.value| == if p == YearRange then 2 else 1
  {
    match p
    case PlusSuffix =>
      if j < |s| && s[j] == '+' then Some([first]) else None
    case YearRange =>
      if j < |s| && s[j] == '-' then
        var k := SpaceRunEnd(s, j + 1);
        if k < |s| && IsDigit(s[k]) then
          var l := SpaceRunEnd(s, DigitRunEnd(s, k));
          if l + 3 <= |s| && s[l..l + 3] == "yrs" then Some([first, RunValue(s, k)]) else None
        else None
      else None
    case SingleYear =>
      if j + 2 <= |s| && s[j..j + 2] == "yr" then Some([first]) else None
  }

  /** Whether the rest of a pattern matches does not depend on the value of its first group. */
  lemma MatchFromAnyFirst(p: Pattern, s: string, j: nat, a: nat, b: nat)
    requires j <= |s|
    ensures MatchFrom(p, s, j, a).Some? == MatchFrom(p, s, j, b).Some?
  {
  }

  /** Does `p` match at position `i`, and with which group values? */
  function MatchAt(p: Pattern, s: string, i: nat): (r: Option<seq<nat>>)
    requires i <= |s|
    ensures r.Some? ==> i < |s| && IsDigit(s[i])
  {
    if i == |s| || !IsDigit(s[i]) then None
    else MatchFrom(p, s, SpaceRunEnd(s, DigitRunEnd(s, i)), RunValue(s, i))
  }

  /**
   * A match starts on a digit, has one group per `(\d+)` of its pattern,
   * and its first group is the value of the digit run it starts on.
   */
  lemma MatchAtShape(p: Pattern, s: string, i: nat)
    requires i <= |s|
    requires MatchAt(p, s, i).Some?
    ensures var g := MatchAt(p, s, i).value;
      |g| == (if p == YearRange then 2 else 1) && g[0] == RunValue(s, i)
  {
  }

  /** A run of digits from `i` to `j` followed by any other character is the maximal run from `i`. */
  lemma {:induction false} DigitRunEndExact(s: string, i: nat, j: nat)
    requires i <= j <= |s| && AllDigits(s[i..j]) && (j == |s| || !IsDigit(s[j]))
    ensures DigitRunEnd(s, i) == j
    decreases j - i
  {
    if i < j {
      assert IsDigit(s[i..j][0]);
      assert s[i + 1..j] == s[i..j][1..];
      DigitRunEndExact(s, i + 1, j);
    }
  }

  /** A run of whitespace from `i` to `j` followed by any other character is the maximal run from `i`. */
  lemma {:induction false} SpaceRunEndExact(s: string, i: nat, j: nat)
    requires i <= j <= |s| && AllSpaces(s[i..j]) && (j == |s| || !IsSpace(s[j]))
    ensures SpaceRunEnd(s, i) == j
    decreases j - i
  {
    if i < j {
      assert IsSpace(s[i..j][0]);
      assert s[i + 1..j] == s[i..j][1..];
      SpaceRunEndExact(s, i + 1, j);
    }
  }

  /**
   * `(\d+)\s*\+` read declaratively: it matches at `i` exactly when
   * some digits from `i` to `j`, then whitespace up to `k`, are followed
   * by a '+' at `k`; the maximal runs are the witnesses.
   */
  lemma PlusDeclarative(s: string, i: nat, j: nat, k: nat)
    requires i <= |s|
    ensures i < j <= k < |s| && AllDigits(s[i..j]) && AllSpaces(s[j..k]) && s[k] == '+'
      ==> MatchAt(PlusSuffix, s, i) == Some([RunValue(s, i)]) && DigitRunEnd(s, i) == j
    ensures MatchAt(PlusSuffix, s, i).Some? ==>
      var j', k' := DigitRunEnd(s, i), SpaceRunEnd(s, DigitRunEnd(s, i));
      i < j' <= k' < |s| && AllDigits(s[i..j']) && AllSpaces(s[j'..k']) && s[k'] == '+'
  {
    if i < j <= k < |s| && AllDigits(s[i..j]) && AllSpaces(s[j..k]) && s[k] == '+' {
      assert !IsDigit(s[j]) by {
        if j < k { assert IsSpace(s[j..k][0]); }
      }
      DigitRunEndExact(s, i, j);
      SpaceRunEndExact(s, j, k);
    }
    if MatchAt(PlusSuffix, s, i).Some? {
      DigitRunDigits(s, i);
      SpaceRunSpaces(s, DigitRunEnd(s, i));
    }
  }

  /**
   * `(\d+)\s*yr(?:s)?` read declaratively: it matches at `i` exactly
   * when some digits from `i` to `j`, then whitespace up to `k`, are
   * followed by "yr" at `k`; the maximal runs are the witnesses.
   */
  lemma SingleDeclarative(s: string, i: nat, j: nat, k: nat)
    requires i <= |s|
    ensures i < j <= k && k + 2 <= |s| && AllDigits(s[i..j]) && AllSpaces(s[j..k]) && s[k..k + 2] == "yr"
      ==> MatchAt(SingleYear, s, i) == Some([RunValue(s, i)]) && DigitRunEnd(s, i) == j
    ensures MatchAt(SingleYear, s, i).Some? ==>
      var j', k' := DigitRunEnd(s, i), SpaceRunEnd(s, DigitRunEnd(s, i));
      i < j' <= k' && k' + 2 <= |s| && AllDigits(s[i..j']) && AllSpaces(s[j'..k']) && s[k'..k' + 2] == "yr"
  {
    if i < j <= k && k + 2 <= |s| && AllDigits(s[i..j]) && AllSpaces(s[j..k]) && s[k..k + 2] == "yr" {
      assert s[k] == 'y' by { assert s[k] == s[k..k + 2][0]; }
      assert !IsDigit(s[j]) by {
        if j < k { assert IsSpace(s[j..k][0]); }
      }
      DigitRunEndExact(s, i, j);
      SpaceRunEndExact(s, j, k);
    }
    if MatchAt(SingleYear, s, i).Some? {
      DigitRunDigits(s, i);
      SpaceRunSpaces(s, DigitRunEnd(s, i));
    }
  }

  /** `re.search(p, s[from..])`: the leftmost position at or after `from` where `p` matches. */
  function Search(p: Pattern, s: string, from: nat): (r: Option<Match>)
    requires from <= |s|
    ensures r.Some? ==> from <= r.value.start <= |s| && MatchAt(p, s, r.value.start) == Some(r.value.groups)
    ensures r.Some? ==> |r.value.groups| == if p == YearRange then 2 else 1
    decreases |s| - from
  {
    match MatchAt(p, s, from)
    case Some(g) => MatchAtShape(p, s, from); Some(Match(from, g))
    case None => if from == |s| then None else Search(p, s, from + 1)
  }

  /** The match `Search` reports is the leftmost one: the pattern matches at no earlier position `k`. */
  lemma {:induction false} SearchLeftmost(p: Pattern, s: string, from: nat, k: nat)
    requires from <= |s|
    requires Search(p, s, from).Some?
    requires from <= k < Search(p, s, from).value.start
    ensures MatchAt(p, s, k).None?
    decreases |s| - from
  {
    assert MatchAt(p, s, from).None?;
    assert Search(p, s, from) == Search(p, s, from + 1);
    if from < k {
      SearchLeftmost(p, s, from + 1, k);
    }
  }

  /** When `Search` reports no match, the pattern matches at no position `k` at or after `from`. */
  lemma {:induction false} SearchNone(p: Pattern, s: string, from: nat, k: nat)
    requires from <= k <= |s|
    requires Search(p, s, from).None?
    ensures MatchAt(p, s, k).None?
    decreases |s| - from
  {
    assert MatchAt(p, s, from).None?;
    if from < k {
      assert Search(p, s, from) == Search(p, s, from + 1);
      SearchNone(p, s, from + 1, k);
    }
  }

  /** Starting one digit earlier inside a run leads to the same match. */
  lemma MatchAtInsideRun(p: Pattern, s: string, i: nat)
    requires 0 < i <= |s| && IsDigit(s[i - 1])
    requires MatchAt(p, s, i).Some?
    ensures DigitRunEnd(s, i - 1) == DigitRunEnd(s, i)
    ensures MatchAt(p, s, i - 1).Some?
  {
    assert DigitRunEnd(s, i - 1) == DigitRunEnd(s, i);
    MatchFromAnyFirst(p, s, SpaceRunEnd(s, DigitRunEnd(s, i)), RunValue(s, i - 1), RunValue(s, i));
  }

  /**
   * A leftmost match starts at the first digit of a run, so its first group
   * is the value of a whole maximal run of digits.
   */
  lemma LeftmostMatchStartsRun(p: Pattern, s: string)
    requires Search(p, s, 0).Some?
    ensures var m := Search(p, s, 0).value;
      (m.start == 0 || !IsDigit(s[m.start - 1])) &&
      AllDigits(s[m.start..DigitRunEnd(s, m.start)]) && m.groups[0] == RunValue(s, m.start)
  {
    var m := Search(p, s, 0).value;
    MatchAtShape(p, s, m.start);
    DigitRunDigits(s, m.start);
    if m.start > 0 && IsDigit(s[m.start - 1]) {
      SearchLeftmost(p, s, 0, m.start - 1);
      MatchAtInsideRun(p, s, m.start);
      assert false;
    }
  }
}
