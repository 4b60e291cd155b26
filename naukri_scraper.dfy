/**
 * `scrape_naukri`, `merge_jsons_into_one` and `main`: each results page is
 * scraped into its own JSON file, and the page files of the crawled range
 * are then concatenated into one merged file.
 */
module NaukriScraper {
  import opened Wrappers
  import opened Text
  import opened Json
  import opened Browser
  import opened NaukriPaths
  import opened Listings
  import opened Enrichment

  /**
   * The files the crawl reads and writes, each holding the list of records
   * of one JSON document.
   */
  class FileSystem {
    var files: map<string, seq<Record>>

    constructor (initial: map<string, seq<Record>>)
      ensures files == initial
    {
      files := initial;
    }
  }

  /**
   * The records one results page writes: `None` when an exception reaches
   * the handler of `scrape_naukri` first (the page did not load, or some
   * detail task raised), or when the browser never started, in which case
   * nothing is written.
   */
  function PageOutput(load: PageLoad, normaliser: Normaliser): Option<seq<Record>> {
    match load
    case LaunchFailed => None
    case LoadFailed => None
    case Loaded(ls) =>
      var recs := Surviving(ls, normaliser);
      var ds := SurvivingDetails(ls, normaliser);
      SurvivingDetailsAligned(ls, normaliser);
      if AllEnriched(recs, ds) then Some(EnrichAll(recs, ds)) else None
  }

  /**
   * The file system after one page: its page file in `dir` with `prefix` is
   * (over)written when it has output. The scraper writes to the page files
   * of "data"/"naukri_output", the ones the merge reads.
   */
  function WritePage(files: map<string, seq<Record>>, dir: string, prefix: string, pageNumber: int,
                     out: Option<seq<Record>>): map<string, seq<Record>> {
    match out
    case Some(recs) => files[PagePath(dir, prefix, pageNumber) := recs]
    case None => files
  }

  /** Every surviving record has exactly the nine summary keys. */
  lemma SurvivingKeys(ls: seq<Listing>, normaliser: Normaliser)
    ensures forall i :: 0 <= i < |Surviving(ls, normaliser)| ==> Surviving(ls, normaliser)[i].Keys == SummaryKeys
  {
    forall i | 0 <= i < |Surviving(ls, normaliser)| ensures Surviving(ls, normaliser)[i].Keys == SummaryKeys {
      SurvivingFromCards(ls, normaliser, Surviving(ls, normaliser)[i]);
    }
  }

  /**
   * A written page holds one record per listing that did not raise, in
   * listing order, each with the nine summary keys and the two detail keys,
   * and with the summary fields extraction gave it.
   */
  lemma PageOutputShape(ls: seq<Listing>, normaliser: Normaliser, out: seq<Record>)
    requires PageOutput(Loaded(ls), normaliser) == Some(out)
    ensures |out| == |Surviving(ls, normaliser)|
    ensures forall i :: 0 <= i < |out| ==> out[i].Keys == SummaryKeys + DetailKeys
    ensures forall i, k :: 0 <= i < |out| && k in Surviving(ls, normaliser)[i] && k !in DetailKeys ==>
      k in out[i] && out[i][k] == Surviving(ls, normaliser)[i][k]
  {
    var recs := Surviving(ls, normaliser);
    var ds := SurvivingDetails(ls, normaliser);
    SurvivingDetailsAligned(ls, normaliser);
    SurvivingKeys(ls, normaliser);
    EnrichAllKeys(recs, ds);
    EnrichAllKeepsSummaries(recs, ds);
  }

  /** As written the normaliser is unbound, so every page that loads is written as an empty list. */
  lemma AsWrittenPageIsEmpty(ls: seq<Listing>)
    ensures PageOutput(Loaded(ls), None) == Some([])
  {
    UnboundNormaliserDropsEverything(ls);
  }

  /**
   * With the normaliser bound, a page whose cards are all readable and whose
   * detail pages all load is written with one record per listing.
   */
  lemma IntendedPageKeepsEveryListing(ls: seq<Listing>)
    requires forall i :: 0 <= i < |ls| ==> ls[i].Readable?
    requires forall i :: 0 <= i < |ls| ==> ls[i].detail.FullDetail?
    requires forall i :: 0 <= i < |ls| ==> ls[i].card.link.Some?
    ensures PageOutput(Loaded(ls), Intended).Some?
    ensures |PageOutput(Loaded(ls), Intended).value| == |ls|
  {
    var recs := Surviving(ls, Intended);
    var ds := SurvivingDetails(ls, Intended);
    SurvivingAllReadable(ls, Intended);
    forall i | 0 <= i < |recs| ensures Enrich(recs[i], ds[i]).ok {
      SummaryRecordShape(ls[i].card, StringUtils.ParseExperience);
    }
  }

  /**
   * `scrape_naukri(url, page_number)`, returning the URL it navigates to
   * (empty when it never gets that far). `raised` is true when starting
   * the browser raised: that exception is outside the `try` and escapes
   * to the caller before the page URL is formed.
   */
  method ScrapeNaukri(fs: FileSystem, url: string, pageNumber: int, load: PageLoad, normaliser: Normaliser)
    returns (visited: string, raised: bool)
    modifies fs
    ensures raised <==> load.LaunchFailed?
    ensures !raised ==> visited == PageUrl(url, pageNumber)
    ensures raised ==> visited == ""
    ensures fs.files == WritePage(old(fs.files), DataDir, OutputPrefix, pageNumber, PageOutput(load, normaliser))
  {
    if load.LaunchFailed? {
      return "", true;
    }
    raised := false;
    visited := url;
    if pageNumber != 1 {
      visited := url + "-" + IntToString(pageNumber);
    }
    match load
    case LoadFailed =>
    case Loaded(ls) =>
      var jobData := ExtractListings(ls, normaliser);
      var details := SurvivingDetails(ls, normaliser);
      SurvivingDetailsAligned(ls, normaliser);
      var records := new Record[|jobData|](i requires 0 <= i < |jobData| => jobData[i]);
      assert records[..] == jobData;
      var ok, newJobData := GatherDescriptions(records, details);
      if ok {
        fs.files := fs.files[ScrapeOutputPath(pageNumber) := newJobData];
        ScrapeOutputIsMergeInput(pageNumber);
      }
  }

  /**
   * What `merge_jsons_into_one` concatenates: the page files from `start`
   * to `end` in ascending order, or `None` when one of them is missing
   * (opening it raises).
   */
  function MergedPages(files: map<string, seq<Record>>, dir: string, prefix: string, start: int, end: int): Option<seq<Record>>
    decreases if end < start then 0 else end - start + 1
  {
    if end < start then Some([])
    else
      match MergedPages(files, dir, prefix, start, end - 1)
      case None => None
      case Some(m) =>
        var p := PagePath(dir, prefix, end);
        if p in files then Some(m + files[p]) else None
  }

  /** The file system after the merge: the merged file is written only when every page file exists. */
  function MergeEffect(files: map<string, seq<Record>>, dir: string, prefix: string, start: int, end: int): map<string, seq<Record>> {
    match MergedPages(files, dir, prefix, start, end)
    case Some(m) => files[MergedPath(dir, prefix) := m]
    case None => files
  }

  /** Once a page file is missing, every longer range fails too. */
  lemma {:induction false} MergedNoneExtends(files: map<string, seq<Record>>, dir: string, prefix: string, start: int, end: int, end': int)
    requires end <= end'
    requires MergedPages(files, dir, prefix, start, end).None?
    ensures MergedPages(files, dir, prefix, start, end').None?
    decreases end' - end
  {
    if end < end' {
      MergedNoneExtends(files, dir, prefix, start, end, end' - 1);
    }
  }

  /** `merge_jsons_into_one(directory, file_prefix, range_start, range_end)`. */
  method MergeJsonsIntoOne(fs: FileSystem, directory: string, filePrefix: string, rangeStart: int, rangeEnd: int)
    returns (ok: bool)
    modifies fs
    ensures ok == MergedPages(old(fs.files), directory, filePrefix, rangeStart, rangeEnd).Some?
    ensures fs.files == MergeEffect(old(fs.files), directory, filePrefix, rangeStart, rangeEnd)
  {
    var merged: seq<Record> := [];
    var i := rangeStart;
    while i <= rangeEnd
      invariant rangeStart <= i && (rangeStart <= rangeEnd ==> i <= rangeEnd + 1)
      invariant rangeEnd < rangeStart ==> i == rangeStart
      invariant fs.files == old(fs.files)
      invariant MergedPages(fs.files, directory, filePrefix, rangeStart, i - 1) == Some(merged)
      decreases rangeEnd + 1 - i
    {
      var path := PagePath(directory, filePrefix, i);
      if path !in fs.files {
        MergedNoneExtends(fs.files, directory, filePrefix, rangeStart, i, rangeEnd);
        return false;
      }
      merged := merged + fs.files[path];
      i := i + 1;
    }
    fs.files := fs.files[MergedPath(directory, filePrefix) := merged];
    ok := true;
  }

  /** The merge fails exactly when some page file of the range is missing. */
  lemma {:induction false} MergedMissing(files: map<string, seq<Record>>, dir: string, prefix: string, start: int, end: int)
    ensures MergedPages(files, dir, prefix, start, end).None? <==>
      exists i :: start <= i <= end && PagePath(dir, prefix, i) !in files
    decreases if end < start then 0 else end - start + 1
  {
    if start <= end {
      MergedMissing(files, dir, prefix, start, end - 1);
      if MergedPages(files, dir, prefix, start, end - 1).None? {
        var i :| start <= i <= end - 1 && PagePath(dir, prefix, i) !in files;
        assert start <= i <= end;
      }
    }
  }

  /** `Some(a + b)` when both are present. */
  function Concat(a: Option<seq<Record>>, b: Option<seq<Record>>): Option<seq<Record>> {
    if a.Some? && b.Some? then Some(a.value + b.value) else None
  }

  lemma ConcatAssociative(a: Option<seq<Record>>, b: Option<seq<Record>>, c: Option<seq<Record>>)
    ensures Concat(Concat(a, b), c) == Concat(a, Concat(b, c))
  {
    if a.Some? && b.Some? && c.Some? {
      assert a.value + b.value + c.value == a.value + (b.value + c.value);
    }
  }

  /** The content of one page file, `None` when it is missing. */
  function PageFile(files: map<string, seq<Record>>, dir: string, prefix: string, i: int): Option<seq<Record>> {
    var p := PagePath(dir, prefix, i);
    if p in files then Some(files[p]) else None
  }

  /** Merging a non-empty range is merging all but its top page, then appending the top page. */
  lemma MergedStep(files: map<string, seq<Record>>, dir: string, prefix: string, start: int, end: int)
    requires start <= end
    ensures MergedPages(files, dir, prefix, start, end) ==
      Concat(MergedPages(files, dir, prefix, start, end - 1), PageFile(files, dir, prefix, end))
  {
  }

  /** Merging a range is merging its two halves and concatenating, lower pages first. */
  lemma {:induction false} MergedSplit(files: map<string, seq<Record>>, dir: string, prefix: string, start: int, mid: int, end: int)
    requires start - 1 <= mid <= end
    ensures MergedPages(files, dir, prefix, start, end) ==
      Concat(MergedPages(files, dir, prefix, start, mid), MergedPages(files, dir, prefix, mid + 1, end))
    decreases end - mid
  {
    var l := MergedPages(files, dir, prefix, start, mid);
    if mid < end {
      var r := MergedPages(files, dir, prefix, mid + 1, end - 1);
      var top := PageFile(files, dir, prefix, end);
      calc {
        MergedPages(files, dir, prefix, start, end);
        { MergedStep(files, dir, prefix, start, end); }
        Concat(MergedPages(files, dir, prefix, start, end - 1), top);
        { MergedSplit(files, dir, prefix, start, mid, end - 1); }
        Concat(Concat(l, r), top);
        { ConcatAssociative(l, r, top); }
        Concat(l, Concat(r, top));
        { MergedStep(files, dir, prefix, mid + 1, end); }
        Concat(l, MergedPages(files, dir, prefix, mid + 1, end));
      }
    } else if l.Some? {
      assert l.value + [] == l.value;
    }
  }

  /** The merge leaves every page file as it was. */
  lemma MergeKeepsPageFiles(files: map<string, seq<Record>>, dir: string, prefix: string, start: int, end: int, i: int)
    ensures var after := MergeEffect(files, dir, prefix, start, end);
      var p := PagePath(dir, prefix, i);
      (p in after <==> p in files) && (p in files ==> after[p] == files[p])
  {
    MergedPathIsNotPagePath(dir, prefix, i);
  }

  /** Number of pages `range(start_page, end_page + 1)` visits. */
  function PageCount(startPage: int, endPage: int): nat {
    if endPage < startPage then 0 else endPage - startPage + 1
  }

  /** The output of each page, in page order. */
  function PageOutputs(loads: seq<PageLoad>, normaliser: Normaliser): (r: seq<Option<seq<Record>>>)
    ensures |r| == |loads|
  {
    seq(|loads|, k requires 0 <= k < |loads| => PageOutput(loads[k], normaliser))
  }

  /** The file system after scraping pages `startPage`, `startPage + 1`, … with the given outputs, in order. */
  function WritePages(files: map<string, seq<Record>>, dir: string, prefix: string, startPage: int,
                      outs: seq<Option<seq<Record>>>): map<string, seq<Record>>
    decreases |outs|
  {
    if outs == [] then files
    else
      var n := |outs| - 1;
      WritePage(WritePages(files, dir, prefix, startPage, outs[..n]), dir, prefix, startPage + n, outs[n])
  }

  /** Scraping one more page writes that page's output after the earlier ones. */
  lemma WritePagesSnoc(files: map<string, seq<Record>>, dir: string, prefix: string, startPage: int,
                       outs: seq<Option<seq<Record>>>, out: Option<seq<Record>>)
    ensures WritePages(files, dir, prefix, startPage, outs + [out])
      == WritePage(WritePages(files, dir, prefix, startPage, outs), dir, prefix, startPage + |outs|, out)
  {
    assert (outs + [out])[..|outs|] == outs;
  }

  /**
   * How many pages the loop of `main` runs before a browser start raises:
   * the index of the first such page, or all of them.
   */
  function PagesBeforeAbort(loads: seq<PageLoad>): (n: nat)
    ensures n <= |loads|
    ensures forall k :: 0 <= k < n ==> !loads[k].LaunchFailed?
    ensures n < |loads| ==> loads[n].LaunchFailed?
    decreases |loads|
  {
    if loads == [] || loads[0].LaunchFailed? then 0
    else
      var n := PagesBeforeAbort(loads[1..]);
      assert forall k :: 1 <= k < 1 + n ==> loads[k] == loads[1..][k - 1];
      1 + n
  }

  /** Page `k`, reached by the loop, ends it exactly when its browser start raises. */
  lemma AbortAt(loads: seq<PageLoad>, k: nat)
    requires k < |loads| && k <= PagesBeforeAbort(loads)
    ensures loads[k].LaunchFailed? <==> PagesBeforeAbort(loads) == k
  {
  }

  /** Writing the first `k + 1` outputs is writing the first `k`, then output `k`. */
  lemma WritePagesPrefixStep(files: map<string, seq<Record>>, dir: string, prefix: string, startPage: int,
                             outs: seq<Option<seq<Record>>>, k: nat)
    requires k < |outs|
    ensures WritePages(files, dir, prefix, startPage, outs[..k + 1])
      == WritePage(WritePages(files, dir, prefix, startPage, outs[..k]), dir, prefix, startPage + k, outs[k])
  {
    assert outs[..k + 1] == outs[..k] + [outs[k]];
    WritePagesSnoc(files, dir, prefix, startPage, outs[..k], outs[k]);
  }

  /** A page whose browser start raised writes nothing. */
  lemma LaunchFailedWritesNothing(files: map<string, seq<Record>>, pageNumber: int, load: PageLoad, normaliser: Normaliser)
    requires load.LaunchFailed?
    ensures WritePage(files, DataDir, OutputPrefix, pageNumber, PageOutput(load, normaliser)) == files
  {
  }

  /**
   * The loop of `main`: `scrape_naukri(url, i)` for each page of the range,
   * in ascending order, with the normaliser bound as intended. The loop
   * has no handler, so a browser start that raises ends it: `completed` is
   * false and no later page is scraped.
   */
  method ScrapePages(fs: FileSystem, url: string, startPage: int, endPage: int, loads: seq<PageLoad>)
    returns (completed: bool)
    requires |loads| == PageCount(startPage, endPage)
    modifies fs
    ensures completed <==> PagesBeforeAbort(loads) == |loads|
    ensures fs.files == WritePages(old(fs.files), DataDir, OutputPrefix, startPage,
                                   PageOutputs(loads, Intended)[..PagesBeforeAbort(loads)])
  {
    var i := startPage;
    while i <= endPage
      invariant startPage <= i && (startPage <= endPage ==> i <= endPage + 1)
      invariant endPage < startPage ==> i == startPage
      invariant i - startPage <= PagesBeforeAbort(loads)
      invariant fs.files == WritePages(old(fs.files), DataDir, OutputPrefix, startPage,
                                       PageOutputs(loads, Intended)[..i - startPage])
      decreases endPage + 1 - i
    {
      var k := i - startPage;
      ghost var before := fs.files;
      WritePagesPrefixStep(old(fs.files), DataDir, OutputPrefix, startPage, PageOutputs(loads, Intended), k);
      AbortAt(loads, k);
      var _, raised := ScrapeNaukri(fs, url, i, loads[k], Intended);
      if raised {
        LaunchFailedWritesNothing(before, i, loads[k], Intended);
        return false;
      }
      i := i + 1;
    }
    completed := true;
  }

  /**
   * `main(search_query, start_page, end_page)`: scrapes each page of the
   * range from the search URL, then merges the page files of
   * "data"/"naukri_output". `ok` is false when `main` raises: a browser
   * start raised, which ends the run before the merge, or the merge raised.
   * Returns the search URL every page URL is built from.
   */
  method Crawl(fs: FileSystem, searchQuery: string, startPage: int, endPage: int, loads: seq<PageLoad>)
    returns (url: string, ok: bool)
    requires |loads| == PageCount(startPage, endPage)
    modifies fs
    ensures url == SearchUrl(searchQuery)
    ensures var n := PagesBeforeAbort(loads);
      var written := WritePages(old(fs.files), DataDir, OutputPrefix, startPage, PageOutputs(loads, Intended)[..n]);
      if n < |loads| then !ok && fs.files == written
      else
        ok == MergedPages(written, DataDir, OutputPrefix, startPage, endPage).Some? &&
        fs.files == MergeEffect(written, DataDir, OutputPrefix, startPage, endPage)
  {
    var queryString := Strip(Lower(ReplaceSpaces(searchQuery)));
    url := SiteRoot + queryString;
    var completed := ScrapePages(fs, url, startPage, endPage, loads);
    if !completed {
      return url, false;
    }
    ok := MergeJsonsIntoOne(fs, DataDir, OutputPrefix, startPage, endPage);
  }

  /** Writing the file of page `n` leaves the file of every other page as it was. */
  lemma WritePageOther(files: map<string, seq<Record>>, dir: string, prefix: string, n: int, out: Option<seq<Record>>, q: int)
    requires q != n
    ensures PageFile(WritePage(files, dir, prefix, n, out), dir, prefix, q) == PageFile(files, dir, prefix, q)
  {
    if PagePath(dir, prefix, n) == PagePath(dir, prefix, q) {
      PagePathInjective(dir, prefix, n, q);
    }
  }

  /** Writing the file of page `n` with output puts that output in it. */
  lemma WritePageSame(files: map<string, seq<Record>>, dir: string, prefix: string, n: int, out: Option<seq<Record>>)
    requires out.Some?
    ensures PageFile(WritePage(files, dir, prefix, n, out), dir, prefix, n) == out
  {
  }

  /**
   * After scraping, page `startPage + k` holds that page's output when it
   * has one, and otherwise whatever file an earlier run left there.
   */
  lemma {:induction false} PageFileAfterScraping(files: map<string, seq<Record>>, dir: string, prefix: string, startPage: int,
                                                 outs: seq<Option<seq<Record>>>, k: int)
    requires 0 <= k < |outs|
    ensures outs[k].Some? ==> PageFile(WritePages(files, dir, prefix, startPage, outs), dir, prefix, startPage + k) == outs[k]
    ensures outs[k].None? ==>
      PageFile(WritePages(files, dir, prefix, startPage, outs), dir, prefix, startPage + k) == PageFile(files, dir, prefix, startPage + k)
    decreases |outs|
  {
    var n := |outs| - 1;
    var earlier := WritePages(files, dir, prefix, startPage, outs[..n]);
    var here := PageFile(WritePages(files, dir, prefix, startPage, outs), dir, prefix, startPage + k);
    assert here == PageFile(WritePage(earlier, dir, prefix, startPage + n, outs[n]), dir, prefix, startPage + k);
    if k < n {
      assert here == PageFile(earlier, dir, prefix, startPage + k) by {
        WritePageOther(earlier, dir, prefix, startPage + n, outs[n], startPage + k);
      }
      PageFileAfterScraping(files, dir, prefix, startPage, outs[..n], k);
      assert outs[..n][k] == outs[k];
    } else if outs[n].Some? {
      WritePageSame(earlier, dir, prefix, startPage + n, outs[n]);
    } else {
      assert here == PageFile(earlier, dir, prefix, startPage + k);
      UnwrittenPageUntouched(files, dir, prefix, startPage, outs[..n], startPage + n);
    }
  }

  /** Scraping pages below `page` never writes the file of `page`. */
  lemma {:induction false} UnwrittenPageUntouched(files: map<string, seq<Record>>, dir: string, prefix: string, startPage: int,
                                                  outs: seq<Option<seq<Record>>>, page: int)
    requires startPage + |outs| <= page
    ensures PageFile(WritePages(files, dir, prefix, startPage, outs), dir, prefix, page) == PageFile(files, dir, prefix, page)
    decreases |outs|
  {
    if outs != [] {
      var n := |outs| - 1;
      var earlier := WritePages(files, dir, prefix, startPage, outs[..n]);
      UnwrittenPageUntouched(files, dir, prefix, startPage, outs[..n], page);
      WritePageOther(earlier, dir, prefix, startPage + n, outs[n], page);
    }
  }

  /** Writing the file of a page outside the range does not change the merge of the range. */
  lemma {:induction false} MergedFrame(files: map<string, seq<Record>>, dir: string, prefix: string, start: int, end: int, page: int, recs: seq<Record>)
    requires end < page
    ensures MergedPages(files[PagePath(dir, prefix, page) := recs], dir, prefix, start, end)
      == MergedPages(files, dir, prefix, start, end)
    decreases if end < start then 0 else end - start + 1
  {
    if start <= end {
      MergedFrame(files, dir, prefix, start, end - 1, page, recs);
      if PagePath(dir, prefix, end) == PagePath(dir, prefix, page) {
        PagePathInjective(dir, prefix, end, page);
      }
    }
  }

  /** The records of the page outputs, concatenated in page order. */
  function Flatten(outs: seq<seq<Record>>): seq<Record> {
    if outs == [] then [] else Flatten(outs[..|outs| - 1]) + outs[|outs| - 1]
  }

  /** The contents of present outputs. */
  function Values(outs: seq<Option<seq<Record>>>): (r: seq<seq<Record>>)
    requires forall k :: 0 <= k < |outs| ==> outs[k].Some?
    ensures |r| == |outs|
  {
    seq(|outs|, k requires 0 <= k < |outs| => outs[k].value)
  }

  /**
   * Writing the last page of a crawl puts its output in its page file and
   * leaves the merge of the pages below it as it was.
   */
  lemma LastPageWritten(files: map<string, seq<Record>>, dir: string, prefix: string, startPage: int,
                        outs: seq<Option<seq<Record>>>)
    requires outs != [] && outs[|outs| - 1].Some?
    ensures var n := |outs| - 1;
      var after := WritePages(files, dir, prefix, startPage, outs);
      PageFile(after, dir, prefix, startPage + n) == outs[n] &&
      MergedPages(after, dir, prefix, startPage, startPage + n - 1)
        == MergedPages(WritePages(files, dir, prefix, startPage, outs[..n]), dir, prefix, startPage, startPage + n - 1)
  {
    var n := |outs| - 1;
    var earlier := WritePages(files, dir, prefix, startPage, outs[..n]);
    assert WritePages(files, dir, prefix, startPage, outs) == earlier[PagePath(dir, prefix, startPage + n) := outs[n].value];
    MergedFrame(earlier, dir, prefix, startPage, startPage + n - 1, startPage + n, outs[n].value);
  }

  /**
   * When every page of the crawl produces output, the merged file is the
   * concatenation of the page outputs in page order; files left by earlier
   * runs play no part.
   */
  lemma {:induction false} MergeAfterScraping(files: map<string, seq<Record>>, dir: string, prefix: string, startPage: int, outs: seq<Option<seq<Record>>>)
    requires forall k :: 0 <= k < |outs| ==> outs[k].Some?
    ensures MergedPages(WritePages(files, dir, prefix, startPage, outs), dir, prefix, startPage, startPage + |outs| - 1)
      == Some(Flatten(Values(outs)))
    decreases |outs|
  {
    if outs != [] {
      var n := |outs| - 1;
      var after := WritePages(files, dir, prefix, startPage, outs);
      var below := MergedPages(after, dir, prefix, startPage, startPage + n - 1);
      assert below == Some(Flatten(Values(outs[..n]))) by {
        LastPageWritten(files, dir, prefix, startPage, outs);
        MergeAfterScraping(files, dir, prefix, startPage, outs[..n]);
      }
      assert Flatten(Values(outs)) == Flatten(Values(outs[..n])) + outs[n].value by {
        assert Values(outs)[..n] == Values(outs[..n]);
      }
      calc {
        MergedPages(after, dir, prefix, startPage, startPage + n);
        { MergedStep(after, dir, prefix, startPage, startPage + n); }
        Concat(below, PageFile(after, dir, prefix, startPage + n));
        { LastPageWritten(files, dir, prefix, startPage, outs); }
        Concat(below, Some(outs[n].value));
      }
    }
  }

  /**
   * When every page of the crawl loads and its detail tasks all return,
   * the merged file holds the pages' records in page order.
   */
  lemma CrawlMergesPageOutputs(files: map<string, seq<Record>>, startPage: int, loads: seq<PageLoad>, normaliser: Normaliser)
    requires forall k :: 0 <= k < |loads| ==> PageOutput(loads[k], normaliser).Some?
    ensures PagesBeforeAbort(loads) == |loads|
    ensures MergedPages(WritePages(files, DataDir, OutputPrefix, startPage, PageOutputs(loads, normaliser)), DataDir, OutputPrefix,
                        startPage, startPage + |loads| - 1)
      == Some(Flatten(Values(PageOutputs(loads, normaliser))))
  {
    MergeAfterScraping(files, DataDir, OutputPrefix, startPage, PageOutputs(loads, normaliser));
  }

  /**
   * As written, a crawl whose pages all load merges only empty pages: the
   * merged file is written and holds no record.
   */
  lemma AsWrittenCrawlMergesNothing(files: map<string, seq<Record>>, startPage: int, loads: seq<PageLoad>)
    requires forall k :: 0 <= k < |loads| ==> loads[k].Loaded?
    ensures MergedPages(WritePages(files, DataDir, OutputPrefix, startPage, PageOutputs(loads, None)), DataDir, OutputPrefix,
                        startPage, startPage + |loads| - 1)
      == Some([])
  {
    forall k | 0 <= k < |loads| ensures PageOutput(loads[k], None) == Some([]) {
      AsWrittenPageIsEmpty(loads[k].listings);
    }
    CrawlMergesPageOutputs(files, startPage, loads, None);
    FlattenEmpty(Values(PageOutputs(loads, None)));
  }

  lemma {:induction false} FlattenEmpty(outs: seq<seq<Record>>)
    requires forall k :: 0 <= k < |outs| ==> outs[k] == []
    ensures Flatten(outs) == []
  {
    if outs != [] {
      FlattenEmpty(outs[..|outs| - 1]);
    }
  }

  /**
   * A crawl that ends at a browser start leaves the file of that page and
   * of every later page as an earlier run left it.
   */
  lemma AbortedCrawlSkipsRest(files: map<string, seq<Record>>, startPage: int, loads: seq<PageLoad>, page: int)
    requires startPage + PagesBeforeAbort(loads) <= page
    ensures var n := PagesBeforeAbort(loads);
      PageFile(WritePages(files, DataDir, OutputPrefix, startPage, PageOutputs(loads, Intended)[..n]), DataDir, OutputPrefix, page)
        == PageFile(files, DataDir, OutputPrefix, page)
  {
    var n := PagesBeforeAbort(loads);
    UnwrittenPageUntouched(files, DataDir, OutputPrefix, startPage, PageOutputs(loads, Intended)[..n], page);
  }
}
