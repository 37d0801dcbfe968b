# Cache-warming crawler, modelled in Dafny

`crawl.py` keeps the LiteSpeed / QUIC.cloud page cache of a WordPress site warm. The crawler
reads the site's `sitemap.xml`, following nested sitemaps, and fetches every page it lists. The
base URL stands in when the sitemap yields nothing. For each page, `AsyncWebCrawler.fetch` does
the following:

- It probes the cache status with a HEAD request.
- While the `X-QC-Cache` header reads `miss` (in any letter case), it warms the cache. Each round
  is a GET of `url + "?qc-cache-warm"`, then a pause of 5, 10 and 15 seconds, then a new probe.
  There are at most three rounds.
- It fetches the page with a timed GET.
- It writes a slow-page row for a GET slower than 500 ms.
- It writes a cache-performance row carrying both cache statuses and the duration.
- It returns the body of an HTML page with status 200.
- Any failure on the way writes one error row and ends the fetch with nothing.

The model has these modules:

- `Text` (`text.dfy`): the Python string operations that decisions rest on. These are
  `s.lower() == "miss"`, `sub in s`, `s.endswith(t)` and `s.strip()`.
- `Fetch` (`fetch.dfy`): one fetch. Its environment (`FetchEnv`) scripts the answer to each HEAD,
  to each warm-up GET and to the full GET. A request with no scripted answer fails as a timeout
  would. Everything the fetch does to the outside world is recorded as a trace of events: requests,
  pauses and rows written. `Fetch.Fetch` is the imperative loop of the source. It is proved equal
  to the specification function `FetchSpec`.
- `FetchProperties` (`fetch_properties.dfy`): what holds of every fetch in every environment.
  This covers the retry bound and back-off, which rows are written and with what, and when the
  body is returned.
- `Sitemap` (`sitemap.dfy`): `fetch_sitemap`. The web is a map from URL to reply (status and
  parsed `<loc>` texts). `Sitemap.FetchSitemap` and its loop `Sitemap.WalkLocs` are proved equal
  to the recursive specification `Flatten`. `fuel` bounds the depth of nested sitemaps.
- `SitemapExamples` (`sitemap_examples.dfy`): a sitemap index with two nested sitemaps, worked
  out at depth one and at depth zero.
- `Crawl` (`crawl.dfy`): `start_crawl`, the choice of seeds and one fetch per seed.

In the sitemap walk, an entry without text ends the walk of its document and the URLs found
before it are kept, since `None.strip()` raises inside the `try` of lines 118-133. A nested
sitemap past the depth limit adds nothing and the walk goes on with the next entry (see
"## Left out" for this choice).

## Model

| member | source | states |
|---|---|---|
| Text.IsMissSpellings | crawl.py:72 | the case-insensitive miss test accepts exactly the 16 spellings of "miss" of length 4 |
| Text.Contains | crawl.py:104 | `sub in s` is true exactly when `sub` occurs at some index of `s` |
| Text.EndsWithSpec | crawl.py:127 | `EndsWith(s, t)`, Python's `s.endswith(t)`, holds exactly when `s` is some string followed by `t` |
| Text.StripSpec | crawl.py:126 | `strip()` removes exactly the white space at both ends and leaves the inside intact |
| Text.StripIdempotent | crawl.py:126 | stripping twice is stripping once |
| Text.StripTrimmed | crawl.py:126 | a string without white space at its ends is left unchanged by `strip()` |
| Fetch.Fetch | crawl.py:58-110 | the step-by-step fetch (probe, warm-up loop, GET, rows, error handler) yields exactly the result and trace of the specification `FetchSpec` |
| Fetch.GetPage | crawl.py:86-105 | the timed GET writes the slow-page row, then the cache row, then returns the HTML body or records the decoding error, exactly as `Download` |
| FetchProperties.RetryLaws | crawl.py:72-80 | in every environment: at most 3 warm-up GETs, all to `url?qc-cache-warm`; the pauses are 5, 10, 15 s in order; one probe more than pauses; one warm-up GET per pause, or one extra when that GET failed and nothing is returned; at most one full GET |
| FetchProperties.RowLaws | crawl.py:86-102 | a cache row exactly when the GET was answered, carrying the page, the last probe's QUIC status, the first probe's LiteSpeed status and the duration; a slow-page row exactly when it was also longer than 500 ms, carrying the page and the duration |
| FetchProperties.ResultLaws | crawl.py:104-110 | the body is returned exactly for an answered GET with status 200, an HTML content type and a decodable body; at most one error row, always the last event, naming the URL and meaning nothing is returned; an answered GET that is not status 200 with an HTML content type returns nothing and writes no error row, and no other fetch returns nothing without an error row |
| FetchProperties.FailureLaws | crawl.py:62-110 | some request before the GET fails (the first probe, a warm-up GET or a re-probe of a round the probes call for) exactly when they are not all answered; then no GET is sent, nothing is returned, and exactly one error row is written, as the last event, naming the page and the error of the first request that failed |
| FetchProperties.WarmLoopFault | crawl.py:72-80 | `WarmLoop` gives up exactly when one of the warm-up GETs and re-probes of the rounds the probes call for fails, and it gives up with the error of the first one that fails |
| FetchProperties.NoRetryUnlessMiss | crawl.py:66-72 | a first probe that does not read a miss (absent header included) means no warm-up GET, no pause and a single probe |
| FetchProperties.EarlyExit | crawl.py:72-87 | when the first probe and the requests of k rounds are answered, warming stops at the first probe that is not a miss, after k rounds, and the GET carries that probe's status |
| FetchProperties.AllMissWarmsThreeTimes | crawl.py:72-87 | when every probe reads a miss and the requests of the three rounds are answered: three rounds, pauses 5, 10, 15 s (30 s in all), four probes, and the GET still follows |
| FetchProperties.FetchAnswered | crawl.py:62-105 | when the first probe and the requests of the rounds the probes call for are answered, the fetch is the first probe, the rounds the probes call for, then the GET phase |
| FetchProperties.Outline | crawl.py:58-110 | every fetch is the first probe, n <= 3 complete rounds, then an error row, a failed warm-up GET and an error row, or the GET phase |
| FetchProperties.WarmLoopUpTo | crawl.py:72-80 | when the probes read a miss up to round k and no further, and those rounds are answered, the warm-up loop does exactly those rounds and ends with the k-th probe's status |
| FetchProperties.RoundsNeeded | crawl.py:72 | the rounds the probes call for: the index of its first probe that is not a miss, capped at 3 |
| FetchProperties.WarmedShape | crawl.py:72-80 | a warm-up loop that ends has done its rounds in order, stopped on a non-miss or after 3 rounds, and holds the last probe's status |
| FetchProperties.CrashedShape | crawl.py:72-80 | a warm-up loop that fails does so in round 1..3, either at its warm-up GET or at its probe |
| FetchProperties.DownloadResult | crawl.py:104-105 | the GET phase returns the body exactly for a decodable HTML answer with status 200 |
| FetchProperties.DownloadKindsLaw | crawl.py:86-102 | the GET phase is one GET, the slow row if slow, the cache row if answered, and an error row on failure or decoding error, in that order |
| FetchProperties.DownloadErrorLast | crawl.py:106-109 | an error row of the GET phase is its last event and carries the error raised |
| FetchProperties.ThreeRounds | crawl.py:76 | the back-off of three rounds is 5, 10 and 15 seconds, 30 in all |
| Sitemap.FetchSitemap | crawl.py:112-134 | the step-by-step `fetch_sitemap` yields exactly `Flatten` of the default or given sitemap URL |
| Sitemap.WalkLocs | crawl.py:125-133 | the loop over the `<loc>` entries yields exactly `FlattenLocs` of the entries |
| Sitemap.IsNestedSitemapSpec | crawl.py:127 | `IsNestedSitemap(u)` holds exactly when "sitemap" occurs in `u` and `u` is some string followed by ".xml" |
| Sitemap.ContributionSpec | crawl.py:126-131 | what `Contribution` adds for one entry is page URLs only: the stripped entry when it names no sitemap, what the sitemap it names reaches one level deeper when depth is left, and nothing for a nested sitemap past the depth limit, missing, not answering 200 or malformed |
| Sitemap.FlattenPageUrls | crawl.py:126-131 | every URL found is a page URL: it names no sitemap and has no white space around it |
| Sitemap.FlatSitemap | crawl.py:125-131 | a sitemap of page entries only yields them stripped, in document order, repeats kept |
| Sitemap.StopsAt | crawl.py:125-133 | the first entry without text ends the walk and keeps what came before |
| Sitemap.NestedSpliced | crawl.py:127-129 | a nested sitemap with depth left is descended into: what it reaches one level deeper takes its place in the walk, before what the later entries yield |
| Sitemap.FailedNestedSkipped | crawl.py:118-133 | a nested sitemap past the depth limit, or one that cannot be fetched, is not status 200 or is malformed, adds nothing, and the walk goes on |
| Sitemap.SelfListingSitemap | crawl.py:127-129 | a sitemap listing only itself yields nothing at any depth |
| Sitemap.FlattenLocsAppend | crawl.py:125-131 | the walk of entries that all have text splits over concatenation |
| Sitemap.DefaultSitemapUrl | crawl.py:114-115 | the default sitemap URL is a leading part of the base URL followed by `/sitemap.xml` |
| Sitemap.DefaultSitemapOfWebUrl | crawl.py:114-115 | the default sitemap of an `http`/`https` base URL with a printable-ASCII host is its scheme and host (user-info and port included) followed by `/sitemap.xml`, whatever path, query or fragment follows |
| Sitemap.DefaultSitemapOfRelative | crawl.py:114-115 | the model's fallback: a base URL not starting with `http://` or `https://` is given the relative `/sitemap.xml` |
| SitemapExamples.TwoLevelIndex | crawl.py:125-131 | an index listing two nested sitemaps yields their pages in order, repeats kept, one of its entries after stripping white space |
| SitemapExamples.IndexAtDepthZero | crawl.py:127-129 | with no depth left, both nested sitemaps of the same index add nothing, so it yields nothing |
| SitemapExamples.PageAfterDepthLimit | crawl.py:125-131 | a page listed after a nested sitemap past the depth limit is still found |
| SitemapExamples.TwoEntries | crawl.py:125-131 | a sitemap of two entries yields the first entry's contribution, then the second's |
| Crawl.Seeds | crawl.py:140 | the seeds are never empty: the URLs found, as they are, when there are any, and the base URL alone otherwise |
| Crawl.CrawlSeeds | crawl.py:139-140 | there is always a task; the tasks are exactly the sitemap's URLs, all page URLs, or the base URL alone when the sitemap yields none |
| Crawl.NoSitemapFallsBack | crawl.py:117-120 | without a usable default sitemap the crawl fetches only the base URL |
| Crawl.EmptyFirstEntryFallsBack | crawl.py:125-126 | a sitemap whose first entry has no text makes the crawl fetch only the base URL |
| Crawl.StartCrawl | crawl.py:136-141 | `start_crawl` makes one fetch per seed, in order, each behaving as `FetchSpec` in its own network |
| Crawl.RunTasks | crawl.py:140-141 | the gathered tasks are one per seed, in order, the i-th behaving as `FetchSpec` of the i-th seed in the i-th task's network |

## Left out

- Transport: HTTP requests go through aiohttp, with 5-second timeouts and the `User-Agent`
  header. The model replaces them with scripted answers. A timeout is one of the errors an answer
  can carry, and the user agent is kept in `Crawler` but not sent anywhere.
- The semaphore and `asyncio.gather` are left out. Fetch tasks run concurrently in the source.
  Here each task meets a network of its own and the tasks are run in order, so interleaving is not
  modelled.
- Each task has its own network. Two tasks for the same URL may therefore see different answers,
  as real cache warming would cause. How one task's answers are correlated with another's is not
  modelled.
- The clock: the GET duration is an input (`real`, in ms). The timestamps of rows and
  `datetime.now()` are not modelled, and neither is floating-point rounding.
- Rows, not files: the slow-page, cache-performance and error rows are trace events. Opening and
  appending to the CSV and log files is not modelled, and neither is a write that fails. Row
  timestamps are left out.
- Logging: the console and debug log messages of `logging` are left out, including the "cache
  HIT achieved" message of lines 82-83, which has no other effect.
- `setup_log_files`, `write_debug_log`, `run_all_crawlers` and the `__main__` block are left out.
  They only create files, log, and run two crawlers (desktop and mobile) on the same site.
- XML parsing: a sitemap document arrives as the text of its `<loc>` elements in the sitemap
  namespace. A malformed document, or a body that cannot be decoded, is `Malformed`.
  `ET.fromstring` and `findall` themselves are not modelled.
- Sitemap.DefaultSitemapUrl: `urljoin` is modelled only for base URLs starting with `http://`
  or `https://`. The host runs up to the first `/`, `?` or `#`, as in `urlsplit`, so user-info
  and port stay part of it. `urlsplit` also deletes tab, CR and LF anywhere in the URL, raises
  `ValueError` on an unbalanced `[` or `]` in the host (line 115 is outside the `try`, so that
  error would end the crawl) and checks non-ASCII hosts under NFKC. None of that is modelled,
  which is why `Sitemap.DefaultSitemapOfWebUrl` asks for a printable-ASCII host without brackets.
- Sitemap.DefaultSitemapOfRelative: this is the model's fallback, not `urljoin`'s behaviour.
  `urljoin` gives other results for a base with another scheme (`ftp://h/x`), with an upper-case
  or otherwise mixed-case scheme (`HTTPS://h`), with leading white space, or starting with `//`
  (`//h/x`).
- Sitemap.FlattenLocs: the source does not fix which `try` catches the `RecursionError` at the
  depth limit. The model assumes the nested call's own `try` (lines 118-133) catches it, so
  that call returns an empty list and the caller's loop goes on to the next entry.
- Sitemap.FetchSitemap: `fuel` stands for Python's recursion limit. The source has no guard
  against cycles, so a self-listing sitemap recurses until that limit.
- Sitemap.Flatten: the reply for a URL is the same each time it is fetched. The web is any map from URL to reply, so it may answer a URL that aiohttp would refuse before sending (one without a host); such a fetch fails in the source and its `try` returns an empty list.
- Text.LowerChar: `lower()` is ASCII-only. Non-ASCII letters never make a `miss` spelling, so
  the test's outcome is unaffected. Python's full case mapping is not modelled.
- Unused state: `base_domain`, `index_map` and the BeautifulSoup import are never used by the
  crawler, so they are left out.
