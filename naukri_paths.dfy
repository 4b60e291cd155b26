/**
 * The strings the crawl derives: the search slug and URL, the per-page URL,
 * the per-page output file and the merged file.
 */
module NaukriPaths {
  import opened Text

  const SiteRoot := "https://www.naukri.com/"
  const DataDir := "data"
  const OutputPrefix := "naukri_output"

  /** `s.replace(" ", "-")`. */
  function ReplaceSpaces(s: string): (r: string)
    ensures |r| == |s|
    ensures forall i :: 0 <= i < |s| ==> r[i] == if s[i] == ' ' then '-' else s[i]
  {
    seq(|s|, i requires 0 <= i < |s| => if s[i] == ' ' then '-' else s[i])
  }

  /** `search_query.replace(" ", "-").lower().strip()`. */
  function Slug(query: string): string {
    Strip(Lower(ReplaceSpaces(query)))
  }

  /** `f"https://www.naukri.com/{query_string}"`. */
  function SearchUrl(query: string): string {
    SiteRoot + Slug(query)
  }

  /** Page 1 is the bare search URL; any other page number `n` appends `-n`. */
  function PageUrl(url: string, pageNumber: int): string {
    if pageNumber != 1 then url + "-" + IntToString(pageNumber) else url
  }

  /** `f"data/naukri_output_{page_number}.json"`, the file one page is written to. */
  function ScrapeOutputPath(pageNumber: int): string {
    "data/naukri_output_" + IntToString(pageNumber) + ".json"
  }

  /** `f"{directory}/{file_prefix}_{i}.json"`, the file the merge reads for page `i`. */
  function PagePath(dir: string, prefix: string, i: int): string {
    dir + "/" + prefix + "_" + IntToString(i) + ".json"
  }

  /** `f"{directory}/{file_prefix}_merged.json"`. */
  function MergedPath(dir: string, prefix: string): string {
    dir + "/" + prefix + "_merged.json"
  }

  predicate SlugChar(c: char) {
    c != ' ' && !IsUpper(c)
  }

  lemma LoweredReplacedClean(query: string)
    ensures forall c :: c in Lower(ReplaceSpaces(query)) ==> SlugChar(c)
  {
    var r := ReplaceSpaces(query);
    forall c | c in Lower(r) ensures SlugChar(c) {
      var i :| 0 <= i < |r| && Lower(r)[i] == c;
      assert c == LowerChar(r[i]);
    }
  }

  lemma StripKeepsSlugChars(l: string)
    requires forall c :: c in l ==> SlugChar(c)
    ensures forall c :: c in Strip(l) ==> SlugChar(c)
  {
    StripSubset(l);
  }

  /** The slug has no spaces and no upper-case letters, and is stripped. */
  lemma SlugShape(query: string)
    ensures forall c :: c in Slug(query) ==> c != ' ' && !IsUpper(c)
    ensures Slug(query) == [] || (!IsSpace(Slug(query)[0]) && !IsSpace(Slug(query)[|Slug(query)| - 1]))
  {
    LoweredReplacedClean(query);
    StripKeepsSlugChars(Lower(ReplaceSpaces(query)));
  }

  /** The scraper writes page `n` exactly where the merge of "data"/"naukri_output" reads it. */
  lemma ScrapeOutputIsMergeInput(n: int)
    ensures ScrapeOutputPath(n) == PagePath(DataDir, OutputPrefix, n)
  {
  }

  /** Distinct page numbers name distinct page files. */
  lemma PagePathInjective(dir: string, prefix: string, i: int, j: int)
    requires PagePath(dir, prefix, i) == PagePath(dir, prefix, j)
    ensures i == j
  {
    var p := dir + "/" + prefix + "_";
    var a, b := PagePath(dir, prefix, i), PagePath(dir, prefix, j);
    assert a == p + (IntToString(i) + ".json");
    assert b == p + (IntToString(j) + ".json");
    assert IntToString(i) + ".json" == a[|p|..] == b[|p|..];
    var x, y := IntToString(i) + ".json", IntToString(j) + ".json";
    assert IntToString(i) == x[..|x| - 5] == y[..|y| - 5] == IntToString(j);
    IntToStringInjective(i, j);
  }

  /** The merged file is never one of the page files it is built from. */
  lemma MergedPathIsNotPagePath(dir: string, prefix: string, i: int)
    ensures MergedPath(dir, prefix) != PagePath(dir, prefix, i)
  {
    var p := dir + "/" + prefix + "_";
    assert MergedPath(dir, prefix) == p + "merged.json";
    assert PagePath(dir, prefix, i) == p + (IntToString(i) + ".json");
    assert MergedPath(dir, prefix)[|p|] == 'm';
    assert PagePath(dir, prefix, i)[|p|] == IntToString(i)[0];
  }

  /** Page 1 is fetched from the bare URL; page `n` ≠ 1 from `url-n`, a different URL. */
  lemma PageUrlShape(url: string, n: int)
    ensures n == 1 ==> PageUrl(url, n) == url
    ensures n != 1 ==> PageUrl(url, n) == url + "-" + IntToString(n)
    ensures n != 1 ==> |PageUrl(url, n)| > |url| + 1 && PageUrl(url, n)[..|url| + 1] == url + "-"
  {
  }

  /** Distinct page numbers are fetched from distinct URLs. */
  lemma PageUrlInjective(url: string, m: int, n: int)
    requires PageUrl(url, m) == PageUrl(url, n)
    ensures m == n
  {
    if m != 1 && n != 1 {
      var a, b := IntToString(m), IntToString(n);
      assert PageUrl(url, m) == (url + "-") + a && PageUrl(url, n) == (url + "-") + b;
      assert a == PageUrl(url, m)[|url| + 1..];
      assert b == PageUrl(url, n)[|url| + 1..];
      IntToStringInjective(m, n);
    } else if m != 1 || n != 1 {
      PageUrlShape(url, m);
      PageUrlShape(url, n);
    }
  }
}
