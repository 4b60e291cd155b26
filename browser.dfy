/**
 * What the browser hands the scraper, as opaque inputs: the text read from
 * each listing card on a results page and the outcome of visiting each
 * listing's detail page. Navigation, selectors and timeouts are not modelled;
 * only whether each step produced its value or raised.
 */
module Browser {
  import opened Wrappers

  /**
   * The values one listing card yields. `id` stands for the fresh random
   * id generated for it; `link` is the title anchor's `href`, which may be
   * absent.
   */
  datatype Card = Card(
    id: string,
    title: string,
    link: Option<string>,
    company: string,
    location: string,
    experience: string,
    postDate: string)

  /** The outcome of visiting one detail page. */
  datatype Detail =
    | NoDetail                                      // raised before the skills were stored
    | SkillsOnly(chips: seq<string>)                // skills stored, then the description raised
    | FullDetail(chips: seq<string>, html: string)  // skill chip texts and description markup

  /** One listing container: reading its card raised, or it gave a card; `detail` is what its link leads to. */
  datatype Listing = Unreadable | Readable(card: Card, detail: Detail)

  /**
   * One results page: starting the browser or opening its tab raised (this
   * happens before the page's exception handler is entered), navigation or
   * the listing selector failed, or the page's listings.
   */
  datatype PageLoad = LaunchFailed | LoadFailed | Loaded(listings: seq<Listing>)
}
