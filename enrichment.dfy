/**
 * `__get_job_description__` and the `asyncio.gather` step after the listing
 * loop: each summary record is completed in place with its key skills and
 * its job description, read from the listing's detail page.
 */
module Enrichment {
  import opened Wrappers
  import opened Text
  import opened Json
  import opened Browser

  /** `[chip.strip() for chip in chips]`, the key skills stored for a listing. */
  function StrippedSkills(chips: seq<string>): seq<string> {
    seq(|chips|, i requires 0 <= i < |chips| => Strip(chips[i]))
  }

  /** Every stored key skill is already stripped: stripping it again changes nothing. */
  lemma StrippedSkillsIdempotent(chips: seq<string>)
    ensures |StrippedSkills(chips)| == |chips|
    ensures forall i :: 0 <= i < |chips| ==> Strip(StrippedSkills(chips)[i]) == StrippedSkills(chips)[i]
  {
    forall i | 0 <= i < |chips| ensures Strip(StrippedSkills(chips)[i]) == StrippedSkills(chips)[i] {
      StripIdempotent(chips[i]);
    }
  }

  /** The loop over the skill chips: one stripped text per chip, in chip order. */
  method CollectStrippedSkills(chips: seq<string>) returns (keySkills: seq<string>)
    ensures keySkills == StrippedSkills(chips)
  {
    keySkills := [];
    for i := 0 to |chips|
      invariant |keySkills| == i
      invariant forall j :: 0 <= j < i ==> keySkills[j] == Strip(chips[j])
    {
      keySkills := keySkills + [Strip(chips[i])];
    }
  }

  /** The record a task leaves behind, and whether the task returned (`ok`) or raised. */
  datatype Outcome = Outcome(record: Record, ok: bool)

  /**
   * The effect of one `__get_job_description__` task on its record. Visiting
   * a missing or `None` link raises before anything is stored; the key
   * skills are stored before the description is read, so a task that raises
   * while reading the description leaves them behind.
   */
  function Enrich(rec: Record, d: Detail): (o: Outcome)
    ensures o.ok <==> Link in rec && rec[Link].Str? && d.FullDetail?
  {
    if Link !in rec || !rec[Link].Str? then Outcome(rec, false)
    else
      match d
      case NoDetail => Outcome(rec, false)
      case SkillsOnly(chips) => Outcome(rec[KeySkills := StrArray(StrippedSkills(chips))], false)
      case FullDetail(chips, html) =>
        Outcome(rec[KeySkills := StrArray(StrippedSkills(chips))][JobDescription := Str(Strip(html))], true)
  }

  /**
   * A task changes only the two detail keys of its record; when it returns,
   * both are present, holding the stripped skills and the stripped
   * description markup.
   */
  lemma EnrichFrame(rec: Record, d: Detail)
    ensures var o := Enrich(rec, d);
      (forall k :: k !in DetailKeys ==> (k in o.record <==> k in rec)) &&
      (forall k :: k !in DetailKeys && k in rec ==> o.record[k] == rec[k]) &&
      (o.ok ==> o.record.Keys == rec.Keys + DetailKeys) &&
      (o.ok ==> o.record[KeySkills] == StrArray(StrippedSkills(d.chips))) &&
      (o.ok ==> o.record[JobDescription] == Str(Strip(d.html)))
  {
  }

  /**
   * One task: completes `jobData[index]` in place and, when it does not
   * raise, returns that record together with its index.
   */
  method GetJobDescription(jobData: array<Record>, index: nat, d: Detail) returns (ok: bool, job: Record, idx: nat)
    requires index < jobData.Length
    modifies jobData
    ensures jobData[..] == old(jobData[..])[index := Enrich(old(jobData[index]), d).record]
    ensures ok == Enrich(old(jobData[index]), d).ok
    ensures ok ==> job == jobData[index] && idx == index
  {
    var rec := jobData[index];
    ok, job, idx := false, rec, index;
    if Link !in rec || !rec[Link].Str? {
      return;
    }
    match d
    case NoDetail =>
    case SkillsOnly(chips) =>
      var keySkills := CollectStrippedSkills(chips);
      jobData[index] := rec[KeySkills := StrArray(keySkills)];
    case FullDetail(chips, html) =>
      var keySkills := CollectStrippedSkills(chips);
      jobData[index] := rec[KeySkills := StrArray(keySkills)];
      jobData[index] := jobData[index][JobDescription := Str(Strip(html))];
      ok, job := true, jobData[index];
  }

  /** Every record after all tasks have run, in the original order. */
  function EnrichAll(rs: seq<Record>, ds: seq<Detail>): (r: seq<Record>)
    requires |rs| == |ds|
    ensures |r| == |rs|
  {
    seq(|rs|, i requires 0 <= i < |rs| => Enrich(rs[i], ds[i]).record)
  }

  /** No task raised, so `asyncio.gather` returns. */
  predicate AllEnriched(rs: seq<Record>, ds: seq<Detail>)
    requires |rs| == |ds|
  {
    forall i :: 0 <= i < |rs| ==> Enrich(rs[i], ds[i]).ok
  }

  /**
   * `asyncio.gather` over one task per record, then
   * `job_data = [job for job, _ in new_job_data]`. `ok` is false when some
   * task raised: `gather` then raises too and `newJobData` is not produced.
   * The tasks touch disjoint records, so they are run one after another.
   */
  method GatherDescriptions(jobData: array<Record>, details: seq<Detail>) returns (ok: bool, newJobData: seq<Record>)
    requires jobData.Length == |details|
    modifies jobData
    ensures jobData[..] == EnrichAll(old(jobData[..]), details)
    ensures ok == AllEnriched(old(jobData[..]), details)
    ensures ok ==> newJobData == jobData[..]
  {
    ghost var before := jobData[..];
    var results: seq<(Record, nat)> := [];
    ok := true;
    for i := 0 to jobData.Length
      invariant |results| == i
      invariant forall j :: 0 <= j < i ==> jobData[j] == Enrich(before[j], details[j]).record
      invariant forall j :: i <= j < jobData.Length ==> jobData[j] == before[j]
      invariant ok <==> forall j :: 0 <= j < i ==> Enrich(before[j], details[j]).ok
      invariant forall j :: 0 <= j < i && Enrich(before[j], details[j]).ok ==>
        results[j] == (Enrich(before[j], details[j]).record, j)
    {
      var taskOk, job, idx := GetJobDescription(jobData, i, details[i]);
      results := results + [(job, idx)];
      ok := ok && taskOk;
    }
    assert jobData[..] == EnrichAll(before, details);
    newJobData := [];
    if ok {
      newJobData := seq(|results|, j requires 0 <= j < |results| => results[j].0);
    }
  }

  /**
   * Completing the records keeps their order and every summary field: the
   * record at each position still has the id, title and link it had.
   */
  lemma EnrichAllKeepsSummaries(rs: seq<Record>, ds: seq<Detail>)
    requires |rs| == |ds|
    ensures forall i, k :: 0 <= i < |rs| && k in rs[i] && k !in DetailKeys ==>
      k in EnrichAll(rs, ds)[i] && EnrichAll(rs, ds)[i][k] == rs[i][k]
  {
    forall i | 0 <= i < |rs| {
      EnrichFrame(rs[i], ds[i]);
    }
  }

  /** When every task returns, each summary record gains exactly the two detail keys. */
  lemma EnrichAllKeys(rs: seq<Record>, ds: seq<Detail>)
    requires |rs| == |ds|
    requires forall i :: 0 <= i < |rs| ==> rs[i].Keys == SummaryKeys
    requires AllEnriched(rs, ds)
    ensures forall i :: 0 <= i < |rs| ==> EnrichAll(rs, ds)[i].Keys == SummaryKeys + DetailKeys
  {
    forall i | 0 <= i < |rs| {
      EnrichFrame(rs[i], ds[i]);
    }
  }
}
