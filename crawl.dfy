/**
 * `AsyncWebCrawler.start_crawl`: read the site's sitemap, then fetch every page URL it lists,
 * or the base URL alone when the sitemap yields nothing.
 *
 * The fetch tasks run concurrently in the source; here each task meets a network of its own,
 * so the tasks do not interfere and are run one after the other.
 */
module Crawl {
  import opened Options
  import opened Fetch
  import opened Sitemap

  /** An `AsyncWebCrawler`: the site it crawls and the user agent its requests carry. */
  datatype Crawler = Crawler(baseUrl: string, userAgent: string)

  /**
   * The network one crawl meets: the sitemaps it can download, and what the requests of the
   * i-th fetch task are answered with.
   */
  datatype Site = Site(web: Web, tasks: seq<FetchEnv>)

  /** A network that answers nothing: every request of the task times out. */
  const Silent := FetchEnv([], [], PageFailed(Timeout))

  function TaskEnv(site: Site, i: nat): (env: FetchEnv) {
    if i < |site.tasks| then site.tasks[i] else Silent
  }

  /**
   * The URLs the fetch tasks are made for, given what the sitemap yielded: never none, the
   * sitemap's URLs as they are when there are any, the base URL alone otherwise.
   */
  function Seeds(found: seq<string>, base: string): (seeds: seq<string>)
    ensures seeds != []
    ensures found != [] ==> seeds == found
    ensures found == [] ==> seeds == [base]
  {
    if found != [] then found else [base]
  }

  /** What the default sitemap of the crawler's site yields, at most `fuel` levels deep. */
  function Found(crawler: Crawler, web: Web, fuel: nat): (urls: seq<string>) {
    Flatten(web, DefaultSitemapUrl(crawler.baseUrl), fuel)
  }

  /**
   * There is always at least one task. Either the tasks are exactly the URLs the sitemap
   * yielded, in order and with repeats, and each of them is a page URL; or the sitemap yielded
   * nothing and the one task fetches the base URL.
   */
  lemma CrawlSeeds(crawler: Crawler, web: Web, fuel: nat)
    ensures var found := Found(crawler, web, fuel);
      var seeds := Seeds(found, crawler.baseUrl);
      && seeds != []
      && (found != [] ==> seeds == found && AllPageUrls(seeds))
      && (found == [] ==> seeds == [crawler.baseUrl])
  {
    FlattenPageUrls(web, DefaultSitemapUrl(crawler.baseUrl), fuel);
  }

  /**
   * When the default sitemap cannot be downloaded, answers with a status other than 200 or is
   * not well-formed, the crawl falls back to the base URL.
   */
  lemma NoSitemapFallsBack(crawler: Crawler, web: Web, fuel: nat)
    requires var u := DefaultSitemapUrl(crawler.baseUrl);
      u !in web || web[u].status != 200 || web[u].document.Malformed?
    ensures Seeds(Found(crawler, web, fuel), crawler.baseUrl) == [crawler.baseUrl]
  {
    assert Found(crawler, web, fuel) == [];
  }

  /**
   * A sitemap whose first entry has no text yields nothing, so the crawl falls back to the
   * base URL, whatever the rest of the sitemap lists.
   */
  lemma EmptyFirstEntryFallsBack(crawler: Crawler, web: Web, fuel: nat, rest: seq<Option<string>>)
    requires var u := DefaultSitemapUrl(crawler.baseUrl);
      u in web && web[u] == Reply(200, Parsed([None] + rest))
    ensures Seeds(Found(crawler, web, fuel), crawler.baseUrl) == [crawler.baseUrl]
  {
    var locs := [None] + rest;
    StopsAt(web, locs, 0, fuel);
    assert locs[..0] == [];
  }

  /**
   * `start_crawl()`: one fetch task per seed, the i-th meeting the network `TaskEnv(site, i)`.
   * `fuel` bounds how deep the sitemap's nested sitemaps are followed.
   */
  method StartCrawl(crawler: Crawler, site: Site, fuel: nat) returns (seeds: seq<string>, runs: seq<FetchRun>)
    ensures seeds == Seeds(Found(crawler, site.web, fuel), crawler.baseUrl)
    ensures |runs| == |seeds|
    ensures forall i :: 0 <= i < |runs| ==> runs[i] == FetchSpec(seeds[i], TaskEnv(site, i))
  {
    var found := FetchSitemap(site.web, crawler.baseUrl, None, fuel);
    seeds := Seeds(found, crawler.baseUrl);
    runs := RunTasks(seeds, site);
  }

  /** The fetch tasks `start_crawl` gathers, one per seed, the i-th meeting `TaskEnv(site, i)`. */
  method RunTasks(seeds: seq<string>, site: Site) returns (runs: seq<FetchRun>)
    ensures |runs| == |seeds|
    ensures forall i :: 0 <= i < |runs| ==> runs[i] == FetchSpec(seeds[i], TaskEnv(site, i))
  {
    runs := [];
    for i := 0 to |seeds|
      invariant |runs| == i
      invariant forall j :: 0 <= j < i ==> runs[j] == FetchSpec(seeds[j], TaskEnv(site, j))
    {
      var result, trace := Fetch.Fetch(seeds[i], TaskEnv(site, i));
      runs := runs + [FetchRun(result, trace)];
    }
  }
}
