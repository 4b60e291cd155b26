/**
 * Scraped records as the JSON dictionaries the scraper builds and writes:
 * a map from key to JSON value. The keys a record can hold form a closed
 * set, each with its JSON name.
 */
module Json {
  import opened Wrappers

  datatype Json = Null | Int(i: int) | Str(s: string) | Arr(items: seq<Json>)

  datatype Key =
    | Id | Title | Company | Location | Experience
    | ExperienceMinYears | ExperienceMaxYears | PostDate | Link
    | KeySkills | JobDescription

  /** The key as it appears in the written JSON. */
  function Name(k: Key): string {
    match k
    case Id => "id"
    case Title => "title"
    case Company => "company"
    case Location => "location"
    case Experience => "experience"
    case ExperienceMinYears => "experience_min_years"
    case ExperienceMaxYears => "experience_max_years"
    case PostDate => "post_date"
    case Link => "link"
    case KeySkills => "key_skills"
    case JobDescription => "job_description"
  }

  type Record = map<Key, Json>

  /** A Python list of strings. */
  function StrArray(ss: seq<string>): (j: Json)
    ensures j.Arr? && |j.items| == |ss|
  {
    Arr(seq(|ss|, i requires 0 <= i < |ss| => Str(ss[i])))
  }

  /** A Python `int` or `None`. */
  function OfOption(o: Option<nat>): (j: Json)
    ensures j.Null? <==> o.None?
    ensures o.Some? ==> j == Int(o.value)
  {
    match o
    case None => Null
    case Some(n) => Int(n)
  }

  /** The nine keys of a record built from one listing. */
  const SummaryKeys: set<Key> := {
    Id, Title, Company, Location, Experience,
    ExperienceMinYears, ExperienceMaxYears, PostDate, Link
  }

  /** The two keys the detail page adds. */
  const DetailKeys: set<Key> := {KeySkills, JobDescription}
}
