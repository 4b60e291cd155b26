# Naukri job scraper: experience normaliser and crawl pipeline

This project models two parts of a job-listing scraper and proves properties about them.

The first part is the experience normaliser `parse_experience_string`. It turns a listing's
free-text experience requirement into a structured value. The input is a text such as
"3-5 Yrs", "12+ yrs" or "Fresher". The result keeps the raw text and adds a minimum and a
maximum number of years and a sorted, duplicate-free list of seniority tags ("Entry Level",
"Mid-Senior Level", …). The text is lower-cased and stripped first. Then an if/elif ladder of
rules runs: fresher, then `N+`, then `A-B yrs`, then `N yr(s)`. The first rule whose trigger
character is present wins. The regular expressions are modelled as leftmost-match searches
(module `Patterns`). Python's lexicographic string order and `sorted(list(set(...)))` are
modelled in `LexOrder`.

The second part is the Naukri crawl:

- `main` builds a search slug and URL from the query.
- It runs `scrape_naukri` once per page of the range.
- Each page run extracts one summary record per listing card. A card whose extraction raises
  is dropped.
- It then completes every record from its detail page with key skills and a job description
  (`__get_job_description__` under `asyncio.gather`).
- It writes the page's records to `data/naukri_output_<n>.json`.
- Finally `merge_jsons_into_one` concatenates the page files of the range into
  `data/naukri_output_merged.json`.

The file system is a `FileSystem` object whose `files` map the methods update. The records of
one page are completed in place in an `array`.

The browser is not modelled. Each page is given as a `PageLoad` value, which takes one of three forms:

- starting the browser raised (`LaunchFailed`);
- the page failed to load (`LoadFailed`);
- it loaded a list of listings (`Loaded`).

Each listing is either unreadable or holds a readable summary card and its detail page. The
crawl is therefore proved for every combination of these outcomes, page by page.

Starting the browser (scrapers/naukri_scraper.py:34-41) happens outside the page's `try`, and the
loop of `main` has no handler. A failure there therefore ends the whole run: no later page is
scraped and the merge never runs. `NaukriScraper.ScrapePages` and `NaukriScraper.Crawl` model this
early end.

In a few places the code behaves differently from what a reader might expect. The model follows
the code:

- "7 yrs" is tagged Senior Level, because the single-year rule has no Mid-Senior step.
- A range such as "5-3 yrs" is accepted with minimum 5 and maximum 3.
- A failing detail task makes the whole page fail. The page then writes no file, and a file
  from an earlier run stays in place.

## Model

| member | source | states |
|---|---|---|
| StringUtils.ParseExperience | utils/string_utils.py:21-81 | The raw text is kept. The tags are strictly sorted (hence duplicate-free). The minimum is present exactly when the maximum is, and exactly when at least one tag is recorded. |
| StringUtils.RunLadder | utils/string_utils.py:27-65 | Every branch of the rule ladder sets both years or neither. |
| StringUtils.LadderTagsIffYears | utils/string_utils.py:68-74 | A rule records years exactly when it records a tag, so the "ensure some level keyword" fallback never takes effect. |
| StringUtils.ParseFromLadder | utils/string_utils.py:68-81 | The result is the ladder's years plus the sorted set of the ladder's tags. |
| StringUtils.FresherRule | utils/string_utils.py:27-30 | Text containing "fresher" or "0-1 yrs", or equal to "0 yrs", gives 0..0 with the tags Entry Level and Fresher. |
| StringUtils.PlusRule | utils/string_utils.py:31-39 | With a "+": the leftmost `(\d+)\s*\+` gives N..999, tagged Lead and Senior for N >= 10, else Mid-Senior. No match gives no years and no tags, and the later rules are not tried. |
| StringUtils.RangeRule | utils/string_utils.py:40-52 | With a "-" and no "+": the leftmost `A-B yrs` gives A..B, tagged by B through the four thresholds. No match gives nothing. |
| StringUtils.SingleRule | utils/string_utils.py:53-65 | Otherwise the leftmost `N yr(s)` gives N..N, tagged Entry and Fresher (0), Junior (<= 2), Mid (<= 5) or Senior. No match gives nothing. |
| StringUtils.PlusLevels | utils/string_utils.py:36-39 | Sorting and deduplicating the "+" rule's tags gives [Lead Level, Senior Level] for N >= 10 (the rule records them in the opposite order) and [Mid-Senior Level] otherwise. |
| StringUtils.TagListsSorted | utils/string_utils.py:80 | The two-tag lists of the fresher and range rules are already in Python's string order. So is [Lead Level, Senior Level], the sorted form of the "+" rule's [Senior Level, Lead Level]. |
| StringUtils.MidBeforeMidSenior | utils/string_utils.py:80 | "Mid Level" sorts before "Mid-Senior Level". |
| LexOrder.SortedSet | utils/string_utils.py:80 | `sorted(list(set(xs)))` is strictly sorted and has exactly the members of `xs`. |
| LexOrder.StrictlySortedUnique | utils/string_utils.py:80 | Two strictly sorted lists with the same members are equal, so the tag list is canonical. |
| LexOrder.SortedSetOfSorted | utils/string_utils.py:80 | A list that is already strictly sorted is unchanged by `sorted(list(set(...)))`. |
| LexOrder.LessTransitive | utils/string_utils.py:80 | The string order used by `sorted` is transitive. |
| LexOrder.LessTotal | utils/string_utils.py:80 | Any two distinct strings are ordered one way or the other. |
| LexOrder.LessAsymmetric | utils/string_utils.py:80 | No two strings are each below the other. |
| Patterns.Search | utils/string_utils.py:32 | `re.search` returns a start position at or after the search origin, where the pattern matches with the groups returned. There is one group for `N+` and `N yr(s)` and two for `A-B yrs`. |
| Patterns.SearchLeftmost | utils/string_utils.py:41 | No match starts at any position before the one `re.search` returns. |
| Patterns.SearchNone | utils/string_utils.py:54 | When `re.search` finds nothing, the pattern matches at no position. |
| Patterns.LeftmostMatchStartsRun | utils/string_utils.py:34 | The leftmost match starts at the first digit of a run, so `int(match.group(1))` reads a whole maximal digit run. |
| Patterns.MatchAtInsideRun | utils/string_utils.py:32 | A match starting inside a digit run implies a match one digit earlier. |
| Patterns.MatchAtShape | utils/string_utils.py:43-44 | A match's first group is the value of the digit run it starts at, and the group count fits the pattern. |
| Patterns.DigitRunDigits | utils/string_utils.py:32 | `\d+` consumes only digits. |
| Patterns.SpaceRunSpaces | utils/string_utils.py:32 | `\s*` consumes only whitespace. |
| Patterns.DigitRunEndExact | utils/string_utils.py:32 | Digits from i to j followed by a non-digit are exactly the run `\d+` takes at i. |
| Patterns.SpaceRunEndExact | utils/string_utils.py:32 | Whitespace from j to k followed by anything else is exactly the run `\s*` takes at j. |
| Patterns.PlusDeclarative | utils/string_utils.py:32 | `(\d+)\s*\+` matches at i if and only if digits, then optional whitespace, then '+' start at i; the group is the value of those digits. |
| Patterns.SingleDeclarative | utils/string_utils.py:54 | `(\d+)\s*yr(?:s)?` matches at i if and only if digits, then optional whitespace, then "yr" start at i; the group is the value of those digits. |
| Text.Strip | utils/string_utils.py:22 | `str.strip()` is no longer than its input and neither begins nor ends with whitespace. |
| Text.StripIsSlice | utils/string_utils.py:22 | `str.strip()` removes whitespace only, and only at the two ends. |
| Text.StripIdempotent | scrapers/naukri_scraper.py:26 | Stripping a stripped text changes nothing. |
| Text.Lower | utils/string_utils.py:22 | `str.lower()` maps each ASCII character to its lower-case form, position by position. |
| Text.NatToStringRoundTrip | utils/string_utils.py:34 | `int(str(n)) == n`: the decimal digits of a number read back as that number. |
| Text.IntToStringInjective | scrapers/naukri_scraper.py:106 | Distinct page numbers format to distinct decimal strings. |
| ExperienceExamples.FresherExample | utils/string_utils.py:27-30 | "Fresher" gives 0..0 with Entry Level and Fresher. |
| ExperienceExamples.FivePlusExample | utils/string_utils.py:31-39 | "5+ yrs" gives 5..999 with Mid-Senior Level. |
| ExperienceExamples.TwelvePlusExample | utils/string_utils.py:31-39 | "12+ yrs" gives 12..999 with Lead Level and Senior Level. |
| ExperienceExamples.ThreeToFiveExample | utils/string_utils.py:40-52 | "3-5 Yrs" gives 3..5 with Junior Level and Mid Level. |
| ExperienceExamples.ReversedRangeExample | utils/string_utils.py:40-52 | "5-3 yrs" gives minimum 5 and maximum 3: the order is not checked. |
| ExperienceExamples.SevenYearsExample | utils/string_utils.py:53-65 | "7 yrs" gives 7..7 with Senior Level. |
| ExperienceExamples.GarbageExample | utils/string_utils.py:53-81 | "garbage" gives no years and no tags. |
| ExperienceExamples.PlusWithoutNumberExample | utils/string_utils.py:31-39 | "+5 yrs" gives nothing: a "+" with no digits before it blocks the other rules. |
| ExperienceExamples.PlusOneDigit | utils/string_utils.py:31-39 | "d+ yrs" for any digit d gives d..999 with Mid-Senior Level. |
| ExperienceExamples.PlusTwoDigits | utils/string_utils.py:31-39 | "de+ yrs" gives the two-digit value..999, tagged by the 10 threshold. |
| ExperienceExamples.RangeDigits | utils/string_utils.py:40-52 | "a-b yrs" for single digits (other than "0-1") gives a..b, tagged by b. |
| ExperienceExamples.SingleDigitYears | utils/string_utils.py:53-65 | "d yrs" for a digit d > 0 gives d..d, tagged by d. |
| ExperienceExamples.NoDigits | utils/string_utils.py:27-81 | Text with no digit, "+" or "-" and no fresher marker gives no years and no tags. |
| ExperienceExamples.PlusBeforeDigit | utils/string_utils.py:31-39 | "+d yrs" gives nothing. |
| Listings.Summarize | scrapers/naukri_scraper.py:54-93 | One pass of the loop body yields a record exactly when the card is readable and the normaliser name is bound, and the record is the card's summary. |
| Listings.SummaryRecordShape | scrapers/naukri_scraper.py:78-88 | Title, company, location and post date are stored stripped. The experience fields hold the normaliser's raw text and years. The link is stored as read. |
| Listings.IntendedRecordExperience | scrapers/naukri_scraper.py:69-85 | With the normaliser bound, the stored experience is the card's text unchanged, and the minimum is null exactly when the maximum is. |
| Listings.ExtractListings | scrapers/naukri_scraper.py:54-93 | The loop returns the records of the listings that did not raise, in listing order. |
| Listings.SurvivingAppend | scrapers/naukri_scraper.py:54-93 | Extraction distributes over concatenation of listing lists, so no listing affects another's record. |
| Listings.SurvivingAllReadable | scrapers/naukri_scraper.py:54-93 | With the normaliser bound and every card readable, there is one record per listing, in order, each the summary of its card. |
| Listings.SurvivingFromCards | scrapers/naukri_scraper.py:54-93 | Every surviving record is the summary of some readable card. |
| Listings.UnboundNormaliserDropsEverything | scrapers/naukri_scraper.py:10 | As written, the normaliser name is unbound, so every listing raises and no record survives. |
| Listings.KeptAppend | scrapers/naukri_scraper.py:90-93 | Dropping failed listings distributes over concatenation. |
| Enrichment.Enrich | scrapers/naukri_scraper.py:16-31 | A task returns exactly when the record has a string link and the detail page loads fully. |
| Enrichment.EnrichFrame | scrapers/naukri_scraper.py:16-31 | A task changes only `key_skills` and `job_description`. When it returns, both are added, holding the stripped chips and the stripped description markup. |
| Enrichment.CollectStrippedSkills | scrapers/naukri_scraper.py:22-26 | The skills loop yields one stripped text per chip, in chip order. |
| Enrichment.StrippedSkillsIdempotent | scrapers/naukri_scraper.py:26 | Every stored key skill is already stripped. |
| Enrichment.GetJobDescription | scrapers/naukri_scraper.py:16-31 | The task updates only `job_data[index]`, to the enriched record, and returns it with its index when it does not raise. |
| Enrichment.GatherDescriptions | scrapers/naukri_scraper.py:98-101 | After `gather`, each record is its enriched self. The new list equals the array when no task raised. |
| Enrichment.EnrichAllKeepsSummaries | scrapers/naukri_scraper.py:98-101 | Enrichment keeps record order and every summary field. |
| Enrichment.EnrichAllKeys | scrapers/naukri_scraper.py:98-101 | When every task returns, each record has exactly the nine summary keys plus the two detail keys. |
| NaukriPaths.ReplaceSpaces | scrapers/naukri_scraper.py:212 | `replace(" ", "-")` changes exactly the spaces, position by position. |
| NaukriPaths.SlugShape | scrapers/naukri_scraper.py:212 | The slug has no spaces or upper-case letters and is stripped. |
| NaukriPaths.PageUrlShape | scrapers/naukri_scraper.py:44-45 | Page 1 uses the bare URL. Any other page n uses the URL followed by "-" and the decimal text of n. |
| NaukriPaths.PageUrlInjective | scrapers/naukri_scraper.py:44-45 | Distinct page numbers are fetched from distinct URLs. |
| NaukriPaths.ScrapeOutputIsMergeInput | scrapers/naukri_scraper.py:106 | The file page n is written to is the file the merge of "data"/"naukri_output" reads for page n. |
| NaukriPaths.PagePathInjective | scrapers/naukri_scraper.py:119 | Distinct page numbers name distinct page files. |
| NaukriPaths.MergedPathIsNotPagePath | scrapers/naukri_scraper.py:125 | The merged file is never one of the page files. |
| NaukriScraper.ScrapeNaukri | scrapers/naukri_scraper.py:33-114 | Raises to its caller exactly when starting the browser fails, and then visits no URL. Otherwise navigates to the page URL. Writes the page file exactly when the page loads and every detail task returns, and changes nothing else. |
| NaukriScraper.PageOutputShape | scrapers/naukri_scraper.py:98-108 | A written page holds one record per surviving listing, in order. Each record has the eleven keys and keeps its summary fields. |
| NaukriScraper.IntendedPageKeepsEveryListing | scrapers/naukri_scraper.py:54-108 | With the normaliser bound, a page whose cards are readable, linked and fully detailed is written with one record per listing. |
| NaukriScraper.AsWrittenPageIsEmpty | scrapers/naukri_scraper.py:10 | As written, every page that loads is written as an empty list. |
| NaukriScraper.MergeJsonsIntoOne | scrapers/naukri_scraper.py:116-127 | The merge succeeds exactly when every page file of the range exists. It then writes their concatenation in page order. Otherwise nothing changes. |
| NaukriScraper.MergedMissing | scrapers/naukri_scraper.py:118-121 | The merge fails exactly when some page file of the range is missing. |
| NaukriScraper.MergedSplit | scrapers/naukri_scraper.py:118-122 | Merging a range equals merging its two halves and concatenating them, lower pages first. |
| NaukriScraper.MergeKeepsPageFiles | scrapers/naukri_scraper.py:125-127 | The merge leaves every page file as it was. |
| NaukriScraper.PagesBeforeAbort | scrapers/naukri_scraper.py:34-41 | The number of pages the loop completes is the index of the first page whose browser start fails, or all of them. |
| NaukriScraper.AbortAt | scrapers/naukri_scraper.py:215-217 | A page the loop reaches ends it exactly when its browser start fails. |
| NaukriScraper.ScrapePages | scrapers/naukri_scraper.py:215-217 | The loop writes each page's output to its file, in ascending page order, up to the first page whose browser start fails. It completes exactly when no start fails. |
| NaukriScraper.Crawl | scrapers/naukri_scraper.py:211-218 | `main`: the search URL is the site root plus the slug. If a browser start fails, the run ends with only the earlier pages written and no merge. Otherwise the final file system is the page writes followed by the merge, and the merge result is reported. |
| NaukriScraper.AbortedCrawlSkipsRest | scrapers/naukri_scraper.py:215-217 | A run ended by a failed browser start leaves the file of that page, and of every later page, as an earlier run left it. |
| NaukriScraper.PageFileAfterScraping | scrapers/naukri_scraper.py:215-217 | After scraping, each page file holds that page's output, or else the file an earlier run left there. |
| NaukriScraper.UnwrittenPageUntouched | scrapers/naukri_scraper.py:215-217 | Scraping pages below a page never touches that page's file. |
| NaukriScraper.MergeAfterScraping | scrapers/naukri_scraper.py:215-218 | When every page produces output, the merge is the concatenation of the page outputs in page order. Files from earlier runs play no part. |
| NaukriScraper.CrawlMergesPageOutputs | scrapers/naukri_scraper.py:211-218 | When every page loads and all its detail tasks return, no browser start failed, and the merged file holds the pages' records in page order. |
| NaukriScraper.AsWrittenCrawlMergesNothing | scrapers/naukri_scraper.py:10 | As written, a crawl whose pages all load produces a merged file with no records. |

## Left out

- Browser automation (navigation, selectors, timeouts): the model does not drive a browser. Page and detail-page contents are inputs (`PageLoad`, `Listing`, `Detail`). A browser start that raises is `LaunchFailed`, and a page that fails to load is `LoadFailed`.
- `browser.close()` in the `finally` at scrapers/naukri_scraper.py:113-114: a failure while closing is not modelled. It would escape after the page file was written.
- A card field whose selector is missing: Playwright locators are always truthy, so the `"N/A"` fallbacks of the listing loop never apply. A missing element makes the read raise. That is modelled as an `Unreadable` listing.
- `asyncio` concurrency: the detail tasks touch disjoint records, so they are run one after another. `gather` does not cancel the other tasks when one raises, and this is not modelled: the records they would still complete are never written, because the page then writes nothing.
- `nanoid.generate`: record ids are part of the card input.
- JSON serialization and `indent=4`: a file holds the list of records written to it, and reading it back gives the same list.
- `os.makedirs` and the `print` calls: they have no effect on the data.
- `clean_and_format_job_description` (scrapers/naukri_scraper.py:137-209) and `get_list_from_string` in the utilities file are not part of this model. They are not on the crawl path.
- The commented-out logger import (scrapers/naukri_scraper.py:14) has no effect and is not modelled. The commented-out import of `parse_experience_string` (line 10) is modelled: it is the unbound normaliser (`Normaliser` `None`), see "## Findings".
- StringUtils.ParseExperience: does not model `int()` raising `ValueError` on a digit run longer than 4300 digits (CPython's default limit on int/str conversion) at utils/string_utils.py:34, 43-44 and 56-57. The listing loop's handler (scrapers/naukri_scraper.py:92-93) would then drop that listing. The model reads digit runs of any length.
- Text handling covers ASCII only. Unicode case mapping and Unicode whitespace are not modelled.
- NaukriScraper.ScrapeNaukri: returns the URL it navigates to as its result. The source returns nothing. The URL is given only as a checkable statement of line 44-47.
- NaukriScraper.ScrapePages: does not collect the visited page URLs. `NaukriPaths.PageUrlShape` states their form.
- NaukriScraper.Crawl: takes its query and page range as arguments. The defaults of `main` ("Software Engineering Jobs", pages 1 to 5) and of `scrape_naukri` (`page_number=1`) are not modelled.
- NaukriScraper.Crawl: always uses the intended normaliser binding. The as-written binding is covered by `NaukriScraper.AsWrittenCrawlMergesNothing`.
- The `if __name__ == '__main__'` entry point at scrapers/naukri_scraper.py:220-221 is not modelled separately. It is `MergeJsonsIntoOne` over pages 1 to 20.

## Findings

| source | as written | input that shows it | evidently intended | confidence | as-written member | corrected member |
|---|---|---|---|---|---|---|
| scrapers/naukri_scraper.py:10 | The import of `parse_experience_string` is commented out, so the call at line 69 raises `NameError`. The handler at lines 92-93 swallows it for every listing. Every page is written as `[]`, and the merged file is empty. | Any results page with one readable listing: its page file is `[]` | The import is active, so each listing yields a record with its experience fields | not executed | NaukriScraper.AsWrittenCrawlMergesNothing | NaukriScraper.IntendedPageKeepsEveryListing |
