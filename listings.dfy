/**
 * The listing loop of `scrape_naukri`: one summary record per listing card,
 * in listing order, with every listing whose extraction raises dropped.
 */
module Listings {
  import opened Wrappers
  import opened Text
  import opened Json
  import StringUtils
  import opened Browser

  /**
   * What the name `parse_experience_string` is bound to when the loop body
   * runs: `None` when it is not bound, so that calling it raises `NameError`.
   */
  type Normaliser = Option<string -> StringUtils.Experience>

  /** The binding the scraper intends: the normaliser of `StringUtils`. */
  const Intended: Normaliser := Some(StringUtils.ParseExperience)


  /** The dictionary literal of the loop body, over its nine computed values. */
  function SummaryOf(id: Json, title: Json, company: Json, location: Json, experience: Json,
                     minYears: Json, maxYears: Json, postDate: Json, link: Json): (r: Record)
    ensures r.Keys == SummaryKeys
  {
    map[
      Id := id,
      Title := title,
      Company := company,
      Location := location,
      Experience := experience,
      ExperienceMinYears := minYears,
      ExperienceMaxYears := maxYears,
      PostDate := postDate,
      Link := link
    ]
  }

  /** The nine-key record built from one card, with `parse` as the normaliser. */
  function SummaryRecord(c: Card, parse: string -> StringUtils.Experience): (r: Record)
    ensures r.Keys == SummaryKeys
  {
    var e := parse(c.experience);
    SummaryOf(
      Str(c.id),
      Str(Strip(c.title)),
      Str(Strip(c.company)),
      Str(Strip(c.location)),
      Str(e.raw),
      OfOption(e.minYears),
      OfOption(e.maxYears),
      Str(Strip(c.postDate)),
      match c.link case Some(l) => Str(l) case None => Null)
  }

  /**
   * The text fields of a summary record are stripped, and its experience
   * fields are the raw text and the years the normaliser gives (the level
   * tags are not stored).
   */
  lemma SummaryRecordShape(c: Card, parse: string -> StringUtils.Experience)
    ensures var r := SummaryRecord(c, parse);
      r[Id] == Str(c.id) &&
      r[Title] == Str(Strip(c.title)) && r[Company] == Str(Strip(c.company)) &&
      r[Location] == Str(Strip(c.location)) && r[PostDate] == Str(Strip(c.postDate)) &&
      r[Experience] == Str(parse(c.experience).raw) &&
      r[ExperienceMinYears] == OfOption(parse(c.experience).minYears) &&
      r[ExperienceMaxYears] == OfOption(parse(c.experience).maxYears) &&
      (r[Link] == match c.link case Some(l) => Str(l) case None => Null)
  {
  }

  /**
   * With the intended normaliser, a record stores its card's experience
   * text unchanged, and its minimum is present exactly when its maximum is.
   */
  lemma IntendedRecordExperience(c: Card)
    ensures var r := SummaryRecord(c, StringUtils.ParseExperience);
      r[Experience] == Str(c.experience) &&
      (r[ExperienceMinYears].Null? <==> r[ExperienceMaxYears].Null?)
  {
    SummaryRecordShape(c, StringUtils.ParseExperience);
  }

  /**
   * One pass of the loop body: `None` when it raises, which it does for an
   * unreadable card and, when the normaliser is not bound, for every card.
   */
  function Summarize(l: Listing, normaliser: Normaliser): (r: Option<Record>)
    ensures r.Some? <==> normaliser.Some? && l.Readable?
    ensures r.Some? ==> r.value == SummaryRecord(l.card, normaliser.value)
  {
    match l
    case Unreadable => None
    case Readable(c, _) =>
      match normaliser
      case Some(parse) => Some(SummaryRecord(c, parse))
      case None => None
  }

  /** The outcome of the loop body for each listing, in listing order. */
  function Outcomes(ls: seq<Listing>, normaliser: Normaliser): (r: seq<Option<Record>>)
    ensures |r| == |ls|
  {
    seq(|ls|, i requires 0 <= i < |ls| => Summarize(ls[i], normaliser))
  }

  /** The detail-page outcome of each listing whose loop body did not raise. */
  function DetailOutcomes(ls: seq<Listing>, normaliser: Normaliser): (r: seq<Option<Detail>>)
    ensures |r| == |ls|
  {
    seq(|ls|, i requires 0 <= i < |ls| =>
      if normaliser.Some? && ls[i].Readable? then Some(ls[i].detail) else None)
  }

  /** The values of the outcomes that are present, in order. */
  function Kept<T>(os: seq<Option<T>>): (r: seq<T>)
    ensures |r| <= |os|
  {
    if os == [] then []
    else
      var last := match os[|os| - 1] case Some(v) => [v] case None => [];
      Kept(os[..|os| - 1]) + last
  }

  /** The records that survive the loop, in listing order. */
  function Surviving(ls: seq<Listing>, normaliser: Normaliser): seq<Record> {
    Kept(Outcomes(ls, normaliser))
  }

  /** The detail-page outcomes of the surviving listings, aligned with `Surviving`. */
  function SurvivingDetails(ls: seq<Listing>, normaliser: Normaliser): seq<Detail> {
    Kept(DetailOutcomes(ls, normaliser))
  }

  /** The listing loop: `job_data.append(job_details)` for each listing that did not raise. */
  method ExtractListings(listings: seq<Listing>, normaliser: Normaliser) returns (jobData: seq<Record>)
    ensures jobData == Surviving(listings, normaliser)
  {
    ghost var outcomes := Outcomes(listings, normaliser);
    jobData := [];
    for i := 0 to |listings|
      invariant jobData == Kept(outcomes[..i])
    {
      assert outcomes[..i + 1][..i] == outcomes[..i];
      match Summarize(listings[i], normaliser)
      case Some(rec) => jobData := jobData + [rec];
      case None =>
    }
    assert outcomes[..|listings|] == outcomes;
  }

  /** Keeping distributes over concatenation. */
  lemma {:induction false} KeptAppend<T>(a: seq<Option<T>>, b: seq<Option<T>>)
    ensures Kept(a + b) == Kept(a) + Kept(b)
    decreases |b|
  {
    if b != [] {
      var b' := b[..|b| - 1];
      assert (a + b)[..|a + b| - 1] == a + b';
      assert (a + b)[|a + b| - 1] == b[|b| - 1];
      KeptAppend(a, b');
    } else {
      assert a + b == a;
    }
  }

  /** Two outcome lists that are present at the same positions keep the same number of values. */
  lemma {:induction false} KeptAligned<T, U>(os: seq<Option<T>>, ps: seq<Option<U>>)
    requires |os| == |ps|
    requires forall i :: 0 <= i < |os| ==> (os[i].Some? <==> ps[i].Some?)
    ensures |Kept(os)| == |Kept(ps)|
  {
    if os != [] {
      KeptAligned(os[..|os| - 1], ps[..|ps| - 1]);
    }
  }

  /** When every outcome is present, keeping them loses nothing and keeps the order. */
  lemma {:induction false} KeptAllPresent<T>(os: seq<Option<T>>)
    requires forall i :: 0 <= i < |os| ==> os[i].Some?
    ensures |Kept(os)| == |os|
    ensures forall i :: 0 <= i < |os| ==> Kept(os)[i] == os[i].value
  {
    if os != [] {
      KeptAllPresent(os[..|os| - 1]);
    }
  }

  /** Every kept value is one of the outcomes. */
  lemma {:induction false} KeptMember<T>(os: seq<Option<T>>, v: T)
    requires v in Kept(os)
    ensures Some(v) in os
  {
    var init := os[..|os| - 1];
    if v in Kept(init) {
      KeptMember(init, v);
      assert forall o :: o in init ==> o in os;
    }
  }

  /** Every listing has exactly one detail outcome per surviving record. */
  lemma SurvivingDetailsAligned(ls: seq<Listing>, normaliser: Normaliser)
    ensures |SurvivingDetails(ls, normaliser)| == |Surviving(ls, normaliser)|
  {
    KeptAligned(DetailOutcomes(ls, normaliser), Outcomes(ls, normaliser));
  }

  /** Extraction distributes over concatenation: no listing affects the records of another. */
  lemma SurvivingAppend(a: seq<Listing>, b: seq<Listing>, normaliser: Normaliser)
    ensures Surviving(a + b, normaliser) == Surviving(a, normaliser) + Surviving(b, normaliser)
    ensures SurvivingDetails(a + b, normaliser) == SurvivingDetails(a, normaliser) + SurvivingDetails(b, normaliser)
  {
    assert Outcomes(a + b, normaliser) == Outcomes(a, normaliser) + Outcomes(b, normaliser);
    assert DetailOutcomes(a + b, normaliser) == DetailOutcomes(a, normaliser) + DetailOutcomes(b, normaliser);
    KeptAppend(Outcomes(a, normaliser), Outcomes(b, normaliser));
    KeptAppend(DetailOutcomes(a, normaliser), DetailOutcomes(b, normaliser));
  }

  /** When the normaliser is bound and no card is unreadable, there is one record per listing, in listing order. */
  lemma SurvivingAllReadable(ls: seq<Listing>, normaliser: Normaliser)
    requires normaliser.Some?
    requires forall i :: 0 <= i < |ls| ==> ls[i].Readable?
    ensures |Surviving(ls, normaliser)| == |ls|
    ensures forall i :: 0 <= i < |ls| ==> Surviving(ls, normaliser)[i] == SummaryRecord(ls[i].card, normaliser.value)
    ensures |SurvivingDetails(ls, normaliser)| == |ls|
    ensures forall i :: 0 <= i < |ls| ==> SurvivingDetails(ls, normaliser)[i] == ls[i].detail
  {
    KeptAllPresent(Outcomes(ls, normaliser));
    KeptAllPresent(DetailOutcomes(ls, normaliser));
  }

  /** Every surviving record is the summary of one readable listing card. */
  lemma SurvivingFromCards(ls: seq<Listing>, normaliser: Normaliser, r: Record)
    requires r in Surviving(ls, normaliser)
    ensures normaliser.Some?
    ensures exists i :: 0 <= i < |ls| && ls[i].Readable? && r == SummaryRecord(ls[i].card, normaliser.value)
  {
    var os := Outcomes(ls, normaliser);
    KeptMember(os, r);
    var i :| 0 <= i < |os| && os[i] == Some(r);
    assert Summarize(ls[i], normaliser) == Some(r);
  }

  /** When no outcome is present, nothing is kept. */
  lemma {:induction false} KeptNonePresent<T>(os: seq<Option<T>>)
    requires forall i :: 0 <= i < |os| ==> os[i].None?
    ensures Kept(os) == []
  {
    if os != [] {
      KeptNonePresent(os[..|os| - 1]);
    }
  }

  /** As written, the normaliser is not bound, so every listing raises and every page is empty. */
  lemma UnboundNormaliserDropsEverything(ls: seq<Listing>)
    ensures Surviving(ls, None) == []
    ensures SurvivingDetails(ls, None) == []
  {
    KeptNonePresent(Outcomes(ls, None));
    KeptNonePresent(DetailOutcomes(ls, None));
  }
}
