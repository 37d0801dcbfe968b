/**
 * `AsyncWebCrawler.fetch`: probe the cache status of a page with a HEAD request, warm the
 * cache while it reports a miss (at most three rounds, with a growing pause), fetch the page
 * with a timed GET, write the slow-page and cache-performance rows, and hand back the body
 * of an HTML page.
 *
 * The network is an environment that scripts the answer to every request in issue order; a
 * request the environment has no answer for fails as a timeout would. What `fetch` does to
 * the outside world (requests, pauses, log rows) is recorded as a trace of events.
 */
module Fetch {
  import opened Options
  import opened Text

  /** The most warm-up rounds one fetch makes. */
  const MaxRetries := 3
  /** The k-th warm-up round pauses `BackoffStep * k` seconds. */
  const BackoffStep := 5
  /** The query marker that asks the cache to regenerate a page. */
  const WarmMarker := "?qc-cache-warm"
  /** The value of a cache-status header that is absent. */
  const Unknown := "UNKNOWN"
  /** A GET that takes longer than this many milliseconds is a slow page. */
  const SlowPageMs := 500.0
  /** The content type a body must carry to be returned. */
  const HtmlType := "text/html"
  /** The error of a request the environment has no answer for. */
  const Timeout := "timeout"

  // ---------------------------------------------------------------- environment

  /** The answer to a HEAD request: its X-QC-Cache and X-LiteSpeed-Cache headers, if present. */
  datatype Probe = ProbeOk(qc: Option<string>, ls: Option<string>) | ProbeFailed(error: string)

  /** The outcome of a cache-warming GET, whose response is not looked at. */
  datatype Warm = WarmOk | WarmFailed(error: string)

  /** The body of the full GET as text, or the error decoding it raised. */
  datatype Body = Decoded(text: string) | Undecodable(error: string)

  /** The answer to the full GET: status, Content-Type header, measured duration in ms, body. */
  datatype Page =
    | PageOk(status: int, contentType: Option<string>, ms: real, body: Body)
    | PageFailed(error: string)

  /**
   * The network as one fetch sees it: `probes[k]` answers the k-th HEAD (0 is the first
   * probe), `warms[k]` the (k+1)-th warm-up GET, `page` the full GET.
   */
  datatype FetchEnv = FetchEnv(probes: seq<Probe>, warms: seq<Warm>, page: Page)

  function ProbeAt(env: FetchEnv, k: nat): (p: Probe) {
    if k < |env.probes| then env.probes[k] else ProbeFailed(Timeout)
  }

  function WarmAt(env: FetchEnv, k: nat): (w: Warm) {
    if k < |env.warms| then env.warms[k] else WarmFailed(Timeout)
  }

  /** The X-QC-Cache status the k-th probe reports, "UNKNOWN" when the header is absent. */
  function QcAt(env: FetchEnv, k: nat): (qc: string) {
    match ProbeAt(env, k)
    case ProbeOk(qc, _) => qc.GetOr(Unknown)
    case ProbeFailed(_) => Unknown
  }

  /** The X-LiteSpeed-Cache status the k-th probe reports, "UNKNOWN" when the header is absent. */
  function LsAt(env: FetchEnv, k: nat): (ls: string) {
    match ProbeAt(env, k)
    case ProbeOk(_, ls) => ls.GetOr(Unknown)
    case ProbeFailed(_) => Unknown
  }

  /**
   * The requests of the first probe and of the first `k` warm-up rounds are answered: the HEAD
   * before the loop, and each round's warm-up GET and re-probe.
   */
  predicate AnsweredThrough(env: FetchEnv, k: nat) {
    ProbeAt(env, 0).ProbeOk? && RoundsAnswered(env, 0, k)
  }

  /** The warm-up GET and the re-probe of each of rounds `lo + 1` to `hi` are answered. */
  predicate RoundsAnswered(env: FetchEnv, lo: nat, hi: nat) {
    forall j :: lo <= j < hi ==> WarmAt(env, j).WarmOk? && ProbeAt(env, j + 1).ProbeOk?
  }

  // ---------------------------------------------------------------- trace

  datatype Event =
    | Head(url: string)
    | WarmGet(url: string)
    | Sleep(seconds: nat)
    | FullGet(url: string)
    | SlowRow(url: string, ms: real)
    | CacheRow(url: string, qc: string, ls: string, ms: real)
    | ErrorRow(url: string, message: string)

  datatype Kind = HeadKind | WarmKind | SleepKind | GetKind | SlowKind | CacheKind | ErrorKind

  function KindOf(e: Event): (k: Kind) {
    match e
    case Head(_) => HeadKind
    case WarmGet(_) => WarmKind
    case Sleep(_) => SleepKind
    case FullGet(_) => GetKind
    case SlowRow(_, _) => SlowKind
    case CacheRow(_, _, _, _) => CacheKind
    case ErrorRow(_, _) => ErrorKind
  }

  /** The kind of each event of `t`, in order. */
  function KindSeq(t: seq<Event>): (ks: seq<Kind>)
    ensures |ks| == |t|
  {
    seq(|t|, i requires 0 <= i < |t| => KindOf(t[i]))
  }

  /** The kinds of the events of `t`, each as often as it occurs. */
  function Kinds(t: seq<Event>): (ks: multiset<Kind>) {
    multiset(KindSeq(t))
  }

  /** How many events of kind `k` the trace holds. */
  function Count(t: seq<Event>, k: Kind): (n: nat) {
    Kinds(t)[k]
  }

  /** The pauses of the trace, in seconds, in order. */
  function Delays(t: seq<Event>): (ds: seq<nat>)
    decreases |t|
  {
    if t == [] then []
    else Delays(t[..|t| - 1]) + (if t[|t| - 1].Sleep? then [t[|t| - 1].seconds] else [])
  }

  function Sum(s: seq<nat>): (total: nat) {
    if s == [] then 0 else Sum(s[..|s| - 1]) + s[|s| - 1]
  }

  /** Every warm-up GET of the trace goes to `target`. */
  predicate WarmsGoTo(t: seq<Event>, target: string) {
    forall i :: 0 <= i < |t| && t[i].WarmGet? ==> t[i].url == target
  }

  /** Every slow-page row the trace holds carries this URL and duration. */
  predicate SlowRowsAre(t: seq<Event>, url: string, ms: real) {
    forall i :: 0 <= i < |t| && t[i].SlowRow? ==> t[i] == SlowRow(url, ms)
  }

  /** Every cache-performance row of the trace carries these values. */
  predicate CacheRowsAre(t: seq<Event>, url: string, qc: string, ls: string, ms: real) {
    forall i :: 0 <= i < |t| && t[i].CacheRow? ==> t[i] == CacheRow(url, qc, ls, ms)
  }

  // ---------------------------------------------------------------- specification

  /** The result of one fetch: the page body or nothing, and what was done on the way. */
  datatype FetchRun = FetchRun(result: Option<string>, trace: seq<Event>)

  /** The outcome of the warm-up loop: the status it ended on, or the round it failed in. */
  datatype Warming =
    | Warmed(qc: string, rounds: nat, events: seq<Event>)
    | Crashed(round: nat, events: seq<Event>, error: string)

  /** Round k of the warm-up loop: warm the cache, pause 5k seconds, probe again. */
  function Round(url: string, k: nat): (t: seq<Event>) {
    [WarmGet(url + WarmMarker), Sleep(BackoffStep * k), Head(url)]
  }

  /** Rounds lo + 1 to hi, in order. */
  function Rounds(url: string, lo: nat, hi: nat): (t: seq<Event>)
    requires lo <= hi
    decreases hi
  {
    if lo == hi then [] else Rounds(url, lo, hi - 1) + Round(url, hi)
  }

  /** The pauses of rounds lo + 1 to hi: 5 (lo + 1), ..., 5 hi. */
  function Backoff(lo: nat, hi: nat): (ds: seq<nat>)
    requires lo <= hi
    decreases hi
  {
    if lo == hi then [] else Backoff(lo, hi - 1) + [BackoffStep * hi]
  }

  function WithPrefix(pre: seq<Event>, w: Warming): (r: Warming) {
    match w
    case Warmed(qc, n, ev) => Warmed(qc, n, pre + ev)
    case Crashed(k, ev, e) => Crashed(k, pre + ev, e)
  }

  /**
   * The warm-up loop entered with status `qc` after `done` rounds. It never runs past round 3:
   * it ends after `done` to 3 rounds, or gives up in one of rounds `done + 1` to 3
   * (`FetchProperties.WarmedShape` and `FetchProperties.CrashedShape`).
   */
  function WarmLoop(url: string, env: FetchEnv, qc: string, done: nat): (r: Warming)
    requires done <= MaxRetries
    decreases MaxRetries - done
  {
    if !(IsMiss(qc) && done < MaxRetries) then Warmed(qc, done, [])
    else
      var k := done + 1;
      match WarmAt(env, done)
      case WarmFailed(e) => Crashed(k, [WarmGet(url + WarmMarker)], e)
      case WarmOk =>
        match ProbeAt(env, k)
        case ProbeFailed(e) => Crashed(k, Round(url, k), e)
        case ProbeOk(q, _) => WithPrefix(Round(url, k), WarmLoop(url, env, q.GetOr(Unknown), k))
  }

  predicate IsSlow(ms: real) {
    ms > SlowPageMs
  }

  /** A response whose body `fetch` returns: status 200 and an HTML content type. */
  predicate IsHtmlPage(status: int, contentType: Option<string>) {
    status == 200 && Contains(contentType.GetOr(""), HtmlType)
  }

  /** The rows written for an answered GET: the slow-page row if it was slow, then the cache row. */
  function Rows(url: string, qc: string, ls: string, ms: real): (t: seq<Event>) {
    (if IsSlow(ms) then [SlowRow(url, ms)] else []) + [CacheRow(url, qc, ls, ms)]
  }

  /** The timed full GET and what follows it, with QUIC status `qc` and LiteSpeed status `ls`. */
  function Download(url: string, page: Page, qc: string, ls: string): (run: FetchRun) {
    var get := [FullGet(url)];
    match page
    case PageFailed(e) => FetchRun(None, get + [ErrorRow(url, e)])
    case PageOk(status, contentType, ms, body) =>
      var rows := Rows(url, qc, ls, ms);
      if IsHtmlPage(status, contentType) then
        match body
        case Decoded(text) => FetchRun(Some(text), get + rows)
        case Undecodable(e) => FetchRun(None, get + rows + [ErrorRow(url, e)])
      else FetchRun(None, get + rows)
  }

  /** What `fetch(url)` does in environment `env`. */
  function FetchSpec(url: string, env: FetchEnv): (run: FetchRun) {
    var probe := [Head(url)];
    match ProbeAt(env, 0)
    case ProbeFailed(e) => FetchRun(None, probe + [ErrorRow(url, e)])
    case ProbeOk(qc, ls) =>
      match WarmLoop(url, env, qc.GetOr(Unknown), 0)
      case Crashed(_, ev, e) => FetchRun(None, probe + ev + [ErrorRow(url, e)])
      case Warmed(q, _, ev) =>
        var d := Download(url, env.page, q, ls.GetOr(Unknown));
        FetchRun(d.result, probe + ev + d.trace)
  }

  lemma WithPrefixAppend(a: seq<Event>, b: seq<Event>, w: Warming)
    ensures WithPrefix(a, WithPrefix(b, w)) == WithPrefix(a + b, w)
  {
    match w
    case Warmed(qc, n, ev) => assert a + (b + ev) == (a + b) + ev;
    case Crashed(k, ev, e) => assert a + (b + ev) == (a + b) + ev;
  }

  // ---------------------------------------------------------------- the method

  /** `AsyncWebCrawler.fetch(session, url)`, step by step as the source runs it. */
  method Fetch(url: string, env: FetchEnv) returns (result: Option<string>, trace: seq<Event>)
    ensures FetchRun(result, trace) == FetchSpec(url, env)
  {
    trace := [Head(url)];
    var first := ProbeAt(env, 0);
    if first.ProbeFailed? {
      trace := trace + [ErrorRow(url, first.error)];
      return None, trace;
    }
    var cacheStatusQc := first.qc.GetOr(Unknown);
    var cacheStatusLs := first.ls.GetOr(Unknown);
    ghost var whole := WarmLoop(url, env, cacheStatusQc, 0);
    ghost var rounds: seq<Event> := [];
    var retryCount := 0;
    while IsMiss(cacheStatusQc) && retryCount < MaxRetries
      invariant retryCount <= MaxRetries
      invariant trace == [Head(url)] + rounds
      invariant whole == WithPrefix(rounds, WarmLoop(url, env, cacheStatusQc, retryCount))
      decreases MaxRetries - retryCount
    {
      ghost var before := WarmLoop(url, env, cacheStatusQc, retryCount);
      retryCount := retryCount + 1;
      trace := trace + [WarmGet(url + WarmMarker)];
      var warm := WarmAt(env, retryCount - 1);
      if warm.WarmFailed? {
        assert before == Crashed(retryCount, [WarmGet(url + WarmMarker)], warm.error);
        assert trace == [Head(url)] + (rounds + [WarmGet(url + WarmMarker)]);
        trace := trace + [ErrorRow(url, warm.error)];
        return None, trace;
      }
      trace := trace + [Sleep(BackoffStep * retryCount)];
      trace := trace + [Head(url)];
      assert trace == [Head(url)] + (rounds + Round(url, retryCount));
      var probe := ProbeAt(env, retryCount);
      if probe.ProbeFailed? {
        assert before == Crashed(retryCount, Round(url, retryCount), probe.error);
        trace := trace + [ErrorRow(url, probe.error)];
        return None, trace;
      }
      cacheStatusQc := probe.qc.GetOr(Unknown);
      assert before == WithPrefix(Round(url, retryCount), WarmLoop(url, env, cacheStatusQc, retryCount));
      WithPrefixAppend(rounds, Round(url, retryCount), WarmLoop(url, env, cacheStatusQc, retryCount));
      rounds := rounds + Round(url, retryCount);
    }
    assert whole == Warmed(cacheStatusQc, retryCount, rounds);
    var got, events := GetPage(url, env.page, cacheStatusQc, cacheStatusLs);
    trace := trace + events;
    return got, trace;
  }

  /**
   * The timed GET of `fetch` and the rows written after it, with QUIC status `qc` and LiteSpeed
   * status `ls`; `events` is what it adds to the trace.
   */
  method GetPage(url: string, page: Page, qc: string, ls: string) returns (result: Option<string>, events: seq<Event>)
    ensures FetchRun(result, events) == Download(url, page, qc, ls)
  {
    events := [FullGet(url)];
    if page.PageFailed? {
      events := events + [ErrorRow(url, page.error)];
      return None, events;
    }
    var duration := page.ms;
    if duration > SlowPageMs {
      events := events + [SlowRow(url, duration)];
    }
    events := events + [CacheRow(url, qc, ls, duration)];
    assert events == [FullGet(url)] + Rows(url, qc, ls, duration);
    if page.status == 200 && Contains(page.contentType.GetOr(""), HtmlType) {
      match page.body
      case Decoded(text) =>
        return Some(text), events;
      case Undecodable(e) =>
        events := events + [ErrorRow(url, e)];
        return None, events;
    }
    return None, events;
  }
}
