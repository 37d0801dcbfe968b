/**
 * What `AsyncWebCrawler.fetch` promises, proved of its specification `Fetch.FetchSpec`
 * (and so, through `Fetch.Fetch`'s postcondition, of the method).
 */
module FetchProperties {
  import opened Options
  import opened Text
  import opened Fetch

  // ---------------------------------------------------------------- trace algebra

  lemma KindsSingle(e: Event)
    ensures Kinds([e]) == multiset{KindOf(e)}
  {
    assert KindSeq([e]) == [KindOf(e)];
  }

  lemma KindSeqAppend(a: seq<Event>, b: seq<Event>)
    ensures KindSeq(a + b) == KindSeq(a) + KindSeq(b)
  {
  }

  lemma KindsAppend(a: seq<Event>, b: seq<Event>)
    ensures Kinds(a + b) == Kinds(a) + Kinds(b)
  {
    assert KindSeq(a + b) == KindSeq(a) + KindSeq(b);
  }

  /** A trace with no event of kind `k` has none at any index. */
  lemma NoneOfKind(t: seq<Event>, k: Kind)
    requires Count(t, k) == 0
    ensures forall i :: 0 <= i < |t| ==> KindOf(t[i]) != k
  {
    forall i | 0 <= i < |t| ensures KindOf(t[i]) != k {
      assert KindSeq(t)[i] in multiset(KindSeq(t));
    }
  }

  lemma DelaysSingle(e: Event)
    ensures Delays([e]) == if e.Sleep? then [e.seconds] else []
  {
    assert [e][..0] == [];
  }

  lemma {:induction false} DelaysAppend(a: seq<Event>, b: seq<Event>)
    ensures Delays(a + b) == Delays(a) + Delays(b)
    decreases |b|
  {
    if b == [] {
      assert a + b == a;
    } else {
      assert (a + b)[..|a + b| - 1] == a + b[..|b| - 1];
      DelaysAppend(a, b[..|b| - 1]);
    }
  }

  lemma WarmsGoToAppend(a: seq<Event>, b: seq<Event>, target: string)
    requires WarmsGoTo(a, target) && WarmsGoTo(b, target)
    ensures WarmsGoTo(a + b, target)
  {
    forall i | 0 <= i < |a + b| && (a + b)[i].WarmGet? ensures (a + b)[i].url == target {
      if i >= |a| { assert (a + b)[i] == b[i - |a|]; }
    }
  }

  lemma CacheRowsAppend(a: seq<Event>, b: seq<Event>, url: string, qc: string, ls: string, ms: real)
    requires CacheRowsAre(a, url, qc, ls, ms) && CacheRowsAre(b, url, qc, ls, ms)
    ensures CacheRowsAre(a + b, url, qc, ls, ms)
  {
    forall i | 0 <= i < |a + b| && (a + b)[i].CacheRow?
      ensures (a + b)[i] == CacheRow(url, qc, ls, ms)
    {
      if i >= |a| { assert (a + b)[i] == b[i - |a|]; }
    }
  }

  lemma SlowRowsAppend(a: seq<Event>, b: seq<Event>, url: string, ms: real)
    requires SlowRowsAre(a, url, ms) && SlowRowsAre(b, url, ms)
    ensures SlowRowsAre(a + b, url, ms)
  {
    forall i | 0 <= i < |a + b| && (a + b)[i].SlowRow?
      ensures (a + b)[i] == SlowRow(url, ms)
    {
      if i >= |a| { assert (a + b)[i] == b[i - |a|]; }
    }
  }

  // ---------------------------------------------------------------- warm-up rounds

  /** The kinds of n rounds: n warm-up GETs, n pauses and n probes. */
  function RoundKinds(n: nat): (ks: multiset<Kind>) {
    multiset{}[HeadKind := n][WarmKind := n][SleepKind := n]
  }

  /** Rounds lo + 1 to hi hold hi - lo warm-up GETs, as many pauses and as many probes. */
  lemma {:induction false} RoundsKinds(url: string, lo: nat, hi: nat)
    requires lo <= hi
    ensures Kinds(Rounds(url, lo, hi)) == RoundKinds(hi - lo)
    decreases hi
  {
    if lo < hi {
      RoundsKinds(url, lo, hi - 1);
      assert KindSeq(Round(url, hi)) == [WarmKind, SleepKind, HeadKind];
      KindsAppend(Rounds(url, lo, hi - 1), Round(url, hi));
    } else {
      assert KindSeq([]) == [];
    }
  }

  /** Round k pauses once, for 5k seconds. */
  lemma RoundDelays(url: string, k: nat)
    ensures Delays(Round(url, k)) == [BackoffStep * k]
  {
    var w, z, h := WarmGet(url + WarmMarker), Sleep(BackoffStep * k), Head(url);
    assert Round(url, k)[..2] == [w, z];
    assert [w, z][..1] == [w];
    assert [w][..0] == [];
    assert Delays([w]) == [];
    assert Delays([w, z]) == [BackoffStep * k];
  }

  lemma {:induction false} BackoffLength(lo: nat, hi: nat)
    requires lo <= hi
    ensures |Backoff(lo, hi)| == hi - lo
    decreases hi
  {
    if lo < hi {
      BackoffLength(lo, hi - 1);
    }
  }

  /** The pauses of rounds lo + 1 to hi are 5 (lo + 1), ..., 5 hi, in that order. */
  lemma {:induction false} RoundsDelays(url: string, lo: nat, hi: nat)
    requires lo <= hi
    ensures Delays(Rounds(url, lo, hi)) == Backoff(lo, hi)
    ensures |Backoff(lo, hi)| == hi - lo
    decreases hi
  {
    BackoffLength(lo, hi);
    if lo < hi {
      RoundsDelays(url, lo, hi - 1);
      RoundDelays(url, hi);
      DelaysAppend(Rounds(url, lo, hi - 1), Round(url, hi));
    }
  }

  /** Every warm-up GET of the rounds goes to the page's URL with the warming marker. */
  lemma {:induction false} RoundsWarms(url: string, lo: nat, hi: nat)
    requires lo <= hi
    ensures WarmsGoTo(Rounds(url, lo, hi), url + WarmMarker)
    decreases hi
  {
    if lo < hi {
      RoundsWarms(url, lo, hi - 1);
      WarmsGoToAppend(Rounds(url, lo, hi - 1), Round(url, hi), url + WarmMarker);
    }
  }

  lemma {:induction false} RoundsFront(url: string, lo: nat, hi: nat)
    requires lo < hi
    ensures Rounds(url, lo, hi) == Round(url, lo + 1) + Rounds(url, lo + 1, hi)
    decreases hi
  {
    if lo + 1 < hi {
      RoundsFront(url, lo, hi - 1);
    }
  }

  /**
   * A warm-up loop that ends has done n rounds in order; it stopped because the status was no
   * longer a miss or three rounds were done, and its status is the last probe's.
   */
  lemma {:induction false} WarmedShape(url: string, env: FetchEnv, qc: string, done: nat)
    requires done <= MaxRetries
    requires WarmLoop(url, env, qc, done).Warmed?
    ensures var w := WarmLoop(url, env, qc, done);
      && done <= w.rounds <= MaxRetries
      && w.events == Rounds(url, done, w.rounds)
      && (w.rounds < MaxRetries ==> !IsMiss(w.qc))
      && (w.rounds == done ==> w.qc == qc)
      && (w.rounds > done ==> w.qc == QcAt(env, w.rounds))
    decreases MaxRetries - done
  {
    if IsMiss(qc) && done < MaxRetries {
      var k := done + 1;
      var q := ProbeAt(env, k).qc.GetOr(Unknown);
      assert WarmLoop(url, env, qc, done) == WithPrefix(Round(url, k), WarmLoop(url, env, q, k));
      WarmedShape(url, env, q, k);
      RoundsFront(url, done, WarmLoop(url, env, q, k).rounds);
    }
  }

  /**
   * A warm-up loop that gives up in round k has done the k - 1 rounds before, and then either
   * only the failed warm-up GET or all of round k with its failed probe.
   */
  lemma {:induction false} CrashedShape(url: string, env: FetchEnv, qc: string, done: nat)
    requires done <= MaxRetries
    requires WarmLoop(url, env, qc, done).Crashed?
    ensures var w := WarmLoop(url, env, qc, done);
      && done < w.round <= MaxRetries
      && (|| w.events == Rounds(url, done, w.round - 1) + [WarmGet(url + WarmMarker)]
          || w.events == Rounds(url, done, w.round))
    decreases MaxRetries - done
  {
    var k := done + 1;
    assert Rounds(url, done, done) == [];
    if WarmAt(env, done).WarmOk? && ProbeAt(env, k).ProbeOk? {
      var q := ProbeAt(env, k).qc.GetOr(Unknown);
      var w' := WarmLoop(url, env, q, k);
      assert WarmLoop(url, env, qc, done) == WithPrefix(Round(url, k), w');
      CrashedShape(url, env, q, k);
      RoundsFront(url, done, w'.round - 1);
      RoundsFront(url, done, w'.round);
      assert Round(url, k) + (Rounds(url, k, w'.round - 1) + [WarmGet(url + WarmMarker)])
          == (Round(url, k) + Rounds(url, k, w'.round - 1)) + [WarmGet(url + WarmMarker)];
    }
  }

  /**
   * The number of warm-up rounds an environment that answers everything calls for, counting
   * from round `from`: that of its first probe that does not read a miss, at most three.
   */
  function RoundsNeeded(env: FetchEnv, from: nat): (n: nat)
    requires from <= MaxRetries
    ensures from <= n <= MaxRetries
    ensures forall j :: from <= j < n ==> IsMiss(QcAt(env, j))
    ensures n < MaxRetries ==> !IsMiss(QcAt(env, n))
    decreases MaxRetries - from
  {
    if from < MaxRetries && IsMiss(QcAt(env, from)) then RoundsNeeded(env, from + 1) else from
  }

  /**
   * From round `done` on, when the probes read a miss up to round `k` and no further, and the
   * requests of those rounds are answered, the warm-up loop does rounds `done + 1` to `k` and
   * ends holding the k-th probe's status.
   */
  lemma {:induction false} WarmLoopUpTo(url: string, env: FetchEnv, done: nat, k: nat)
    requires done <= k <= MaxRetries
    requires forall j :: done <= j < k ==>
      IsMiss(QcAt(env, j)) && WarmAt(env, j).WarmOk? && ProbeAt(env, j + 1).ProbeOk?
    requires k == MaxRetries || !IsMiss(QcAt(env, k))
    ensures WarmLoop(url, env, QcAt(env, done), done) == Warmed(QcAt(env, k), k, Rounds(url, done, k))
    decreases k - done
  {
    if done < k {
      assert WarmAt(env, done).WarmOk? && ProbeAt(env, done + 1).ProbeOk?;
      WarmLoopUpTo(url, env, done + 1, k);
      RoundsFront(url, done, k);
    } else {
      assert Rounds(url, done, done) == [];
    }
  }

  // ---------------------------------------------------------------- the full GET

  /** The kinds of the events the GET phase produces for each answer to the GET, in order. */
  function DownloadKindList(page: Page): (ks: seq<Kind>) {
    match page
    case PageFailed(_) => [GetKind, ErrorKind]
    case PageOk(status, contentType, ms, body) =>
      [GetKind] + (if IsSlow(ms) then [SlowKind] else []) + [CacheKind]
      + (if IsHtmlPage(status, contentType) && body.Undecodable? then [ErrorKind] else [])
  }

  function DownloadKinds(page: Page): (ks: multiset<Kind>) {
    multiset(DownloadKindList(page))
  }

  /**
   * The GET phase issues one GET and no other request; writes the slow-page row exactly when
   * the page took longer than 500 ms and the cache-performance row whenever the GET was
   * answered; and writes an error row exactly when the GET failed or an HTML body could not
   * be decoded.
   */
  lemma DownloadKindsLaw(url: string, page: Page, qc: string, ls: string)
    ensures KindSeq(Download(url, page, qc, ls).trace) == DownloadKindList(page)
    ensures Kinds(Download(url, page, qc, ls).trace) == DownloadKinds(page)
  {
    var t := Download(url, page, qc, ls).trace;
    match page
    case PageFailed(e) =>
      assert KindSeq(t) == [GetKind, ErrorKind];
    case PageOk(status, contentType, ms, body) =>
      var slow: seq<Kind> := if IsSlow(ms) then [SlowKind] else [];
      var rows := Rows(url, qc, ls, ms);
      RowsKinds(url, qc, ls, ms);
      KindSeqAppend([FullGet(url)], rows);
      assert KindSeq([FullGet(url)] + rows) == [GetKind] + slow + [CacheKind];
      if IsHtmlPage(status, contentType) && body.Undecodable? {
        KindSeqAppend([FullGet(url)] + rows, [ErrorRow(url, body.error)]);
      } else {
        assert DownloadKindList(page) == [GetKind] + slow + [CacheKind];
      }
  }

  /** The rows of an answered GET: a slow-page row when it was slow, then the cache row. */
  lemma RowsKinds(url: string, qc: string, ls: string, ms: real)
    ensures KindSeq(Rows(url, qc, ls, ms)) == (if IsSlow(ms) then [SlowKind] else []) + [CacheKind]
  {
    if IsSlow(ms) {
      assert KindSeq(Rows(url, qc, ls, ms)) == [SlowKind, CacheKind];
    } else {
      assert KindSeq(Rows(url, qc, ls, ms)) == [CacheKind];
    }
  }

  /** The GET phase never pauses. */
  lemma DownloadDelays(url: string, page: Page, qc: string, ls: string)
    ensures Delays(Download(url, page, qc, ls).trace) == []
  {
    var get := [FullGet(url)];
    DelaysSingle(FullGet(url));
    match page
    case PageFailed(e) =>
      DelaysSingle(ErrorRow(url, e));
      DelaysAppend(get, [ErrorRow(url, e)]);
    case PageOk(status, contentType, ms, body) =>
      var rows := Rows(url, qc, ls, ms);
      RowsDelays(url, qc, ls, ms);
      DelaysAppend(get, rows);
      if IsHtmlPage(status, contentType) && body.Undecodable? {
        DelaysSingle(ErrorRow(url, body.error));
        DelaysAppend(get + rows, [ErrorRow(url, body.error)]);
      }
  }

  lemma RowsDelays(url: string, qc: string, ls: string, ms: real)
    ensures Delays(Rows(url, qc, ls, ms)) == []
  {
    var c := CacheRow(url, qc, ls, ms);
    DelaysSingle(c);
    if IsSlow(ms) {
      DelaysSingle(SlowRow(url, ms));
      DelaysAppend([SlowRow(url, ms)], [c]);
    } else {
      assert Rows(url, qc, ls, ms) == [c];
    }
  }

  /** The cache-performance row carries the page's URL, the statuses given and the duration. */
  lemma DownloadCacheRows(url: string, page: Page, qc: string, ls: string)
    requires page.PageOk?
    ensures CacheRowsAre(Download(url, page, qc, ls).trace, url, qc, ls, page.ms)
  {
    var t := Download(url, page, qc, ls).trace;
    var rows := Rows(url, qc, ls, page.ms);
    forall i | 0 <= i < |t| && t[i].CacheRow? ensures t[i] == CacheRow(url, qc, ls, page.ms) {
      assert t[..1 + |rows|] == [FullGet(url)] + rows;
      assert i == |rows|;
      assert t[i] == rows[|rows| - 1];
    }
  }

  /** The slow-page row of the GET phase names the page and the measured duration. */
  lemma DownloadSlowRows(url: string, page: Page, qc: string, ls: string)
    requires page.PageOk?
    ensures SlowRowsAre(Download(url, page, qc, ls).trace, url, page.ms)
  {
    var t := Download(url, page, qc, ls).trace;
    var rows := Rows(url, qc, ls, page.ms);
    forall i | 0 <= i < |t| && t[i].SlowRow? ensures t[i] == SlowRow(url, page.ms) {
      assert t[..1 + |rows|] == [FullGet(url)] + rows;
      assert i == 1 && IsSlow(page.ms);
    }
  }

  /** An error row of the GET phase is its last event: a failed GET, or an HTML body that cannot be decoded. */
  lemma DownloadErrorLast(url: string, page: Page, qc: string, ls: string)
    ensures var t := Download(url, page, qc, ls).trace;
      && (page.PageFailed? ==> t[|t| - 1] == ErrorRow(url, page.error))
      && (page.PageOk? && IsHtmlPage(page.status, page.contentType) && page.body.Undecodable? ==>
            t[|t| - 1] == ErrorRow(url, page.body.error))
  {
  }

  /**
   * The GET phase returns the body exactly for a decodable answer with status 200 and an HTML
   * content type; an error row means nothing is returned; any other answer returns nothing
   * without an error row.
   */
  lemma DownloadResult(url: string, page: Page, qc: string, ls: string)
    ensures var d := Download(url, page, qc, ls);
      && (d.result.Some? <==>
            page.PageOk? && IsHtmlPage(page.status, page.contentType) && page.body.Decoded?)
      && (d.result.Some? ==> d.result.value == page.body.text)
      && (d.result.Some? ==> DownloadKinds(page)[ErrorKind] == 0)
      && (d.result.None? && DownloadKinds(page)[ErrorKind] == 0 ==>
            page.PageOk? && !IsHtmlPage(page.status, page.contentType))
  {
  }

  // ---------------------------------------------------------------- fetch

  /** The first probe followed by rounds 1 to n. */
  function Warmup(url: string, n: nat): (t: seq<Event>) {
    [Head(url)] + Rounds(url, 0, n)
  }

  /** The kinds of the first probe followed by n rounds. */
  function WarmupKinds(n: nat): (ks: multiset<Kind>) {
    multiset{}[HeadKind := n + 1][WarmKind := n][SleepKind := n]
  }

  lemma WarmupLaws(url: string, n: nat)
    ensures Kinds(Warmup(url, n)) == WarmupKinds(n)
    ensures Delays(Warmup(url, n)) == Backoff(0, n)
    ensures |Backoff(0, n)| == n
    ensures WarmsGoTo(Warmup(url, n), url + WarmMarker)
  {
    RoundsKinds(url, 0, n);
    KindsSingle(Head(url)); KindsAppend([Head(url)], Rounds(url, 0, n));
    RoundsDelays(url, 0, n);
    DelaysSingle(Head(url)); DelaysAppend([Head(url)], Rounds(url, 0, n));
    RoundsWarms(url, 0, n);
    WarmsGoToAppend([Head(url)], Rounds(url, 0, n), url + WarmMarker);
  }

  /** How a fetch ends after its first probe and its complete warm-up rounds. */
  datatype Ending =
    | ProbeError(error: string)
    | WarmError(error: string)
    | Downloaded

  /** What follows the warm-up: an error row, a failed warm-up GET and an error row, or the GET phase. */
  function Rest(url: string, env: FetchEnv, n: nat, ending: Ending): (t: seq<Event>) {
    match ending
    case ProbeError(e) => [ErrorRow(url, e)]
    case WarmError(e) => [WarmGet(url + WarmMarker), ErrorRow(url, e)]
    case Downloaded => Download(url, env.page, QcAt(env, n), LsAt(env, 0)).trace
  }

  /**
   * Every fetch is the first probe, n complete warm-up rounds, and then one of: an error row (a
   * probe failed), the failed warm-up GET of round n + 1 and an error row, or the GET phase
   * carrying the status the last probe read and the LiteSpeed status the first probe read.
   */
  function Ended(url: string, env: FetchEnv, n: nat, ending: Ending): (run: FetchRun) {
    var result := if ending.Downloaded? then Download(url, env.page, QcAt(env, n), LsAt(env, 0)).result else None;
    FetchRun(result, Warmup(url, n) + Rest(url, env, n, ending))
  }

  lemma Outline(url: string, env: FetchEnv) returns (n: nat, ending: Ending)
    ensures n <= MaxRetries
    ensures ending.WarmError? ==> n < MaxRetries
    ensures FetchSpec(url, env) == Ended(url, env, n, ending)
    ensures ending.Downloaded? <==> ProbeAt(env, 0).ProbeOk? && WarmLoop(url, env, QcAt(env, 0), 0).Warmed?
    ensures !ending.Downloaded? ==>
      ending.error == (if ProbeAt(env, 0).ProbeFailed? then ProbeAt(env, 0).error
                       else WarmLoop(url, env, QcAt(env, 0), 0).error)
  {
    match ProbeAt(env, 0)
    case ProbeFailed(e) =>
      n, ending := 0, ProbeError(e);
      assert Rounds(url, 0, 0) == [];
    case ProbeOk(qc, ls) =>
      var w := WarmLoop(url, env, qc.GetOr(Unknown), 0);
      if w.Crashed? {
        CrashedShape(url, env, qc.GetOr(Unknown), 0);
        if w.events == Rounds(url, 0, w.round) {
          n, ending := w.round, ProbeError(w.error);
        } else {
          n, ending := w.round - 1, WarmError(w.error);
          assert [Head(url)] + w.events + [ErrorRow(url, w.error)]
              == Warmup(url, n) + [WarmGet(url + WarmMarker), ErrorRow(url, w.error)];
        }
      } else {
        WarmedShape(url, env, qc.GetOr(Unknown), 0);
        n, ending := w.rounds, Downloaded;
      }
  }

  /** The kinds of the events after the warm-up, in each ending. */
  function RestKinds(page: Page, ending: Ending): (ks: multiset<Kind>) {
    match ending
    case ProbeError(_) => multiset{ErrorKind}
    case WarmError(_) => multiset{WarmKind, ErrorKind}
    case Downloaded => DownloadKinds(page)
  }

  /** How many events of each kind follow the warm-up, in each ending. */
  lemma RestCounts(page: Page, ending: Ending)
    ensures var m := RestKinds(page, ending);
      var get := ending.Downloaded?;
      var answered := get && page.PageOk?;
      && m[HeadKind] == 0 && m[SleepKind] == 0
      && m[WarmKind] == (if ending.WarmError? then 1 else 0)
      && m[GetKind] == (if get then 1 else 0)
      && m[CacheKind] == (if answered then 1 else 0)
      && m[SlowKind] == (if answered && IsSlow(page.ms) then 1 else 0)
      && m[ErrorKind] == (if !get || page.PageFailed? then 1
                          else if IsHtmlPage(page.status, page.contentType) && page.body.Undecodable? then 1
                          else 0)
  {
    if ending.Downloaded? {
      DownloadCounts(page);
    }
  }

  /** How many events of each kind the GET phase produces. */
  lemma DownloadCounts(page: Page)
    ensures var m := DownloadKinds(page);
      && m[HeadKind] == 0 && m[SleepKind] == 0 && m[WarmKind] == 0
      && m[GetKind] == 1
      && m[CacheKind] == (if page.PageOk? then 1 else 0)
      && m[SlowKind] == (if page.PageOk? && IsSlow(page.ms) then 1 else 0)
      && m[ErrorKind] == (if page.PageFailed? then 1
                          else if IsHtmlPage(page.status, page.contentType) && page.body.Undecodable? then 1
                          else 0)
  {
    match page
    case PageFailed(_) =>
      assert DownloadKinds(page) == multiset{GetKind, ErrorKind};
    case PageOk(status, contentType, ms, body) =>
      var slow: seq<Kind> := if IsSlow(ms) then [SlowKind] else [];
      var err: seq<Kind> := if IsHtmlPage(status, contentType) && body.Undecodable? then [ErrorKind] else [];
      assert DownloadKindList(page) == [GetKind] + slow + [CacheKind] + err;
      assert DownloadKinds(page) == multiset{GetKind} + multiset(slow) + multiset{CacheKind} + multiset(err);
  }

  lemma RestKindsLaw(url: string, env: FetchEnv, n: nat, ending: Ending)
    ensures Kinds(Rest(url, env, n, ending)) == RestKinds(env.page, ending)
  {
    var rest := Rest(url, env, n, ending);
    match ending
    case ProbeError(e) =>
      assert KindSeq(rest) == [ErrorKind];
    case WarmError(e) =>
      assert KindSeq(rest) == [WarmKind, ErrorKind];
    case Downloaded =>
      DownloadKindsLaw(url, env.page, QcAt(env, n), LsAt(env, 0));
  }

  lemma RestDelays(url: string, env: FetchEnv, n: nat, ending: Ending)
    ensures Delays(Rest(url, env, n, ending)) == []
  {
    var rest := Rest(url, env, n, ending);
    match ending
    case ProbeError(e) =>
      DelaysSingle(rest[0]);
    case WarmError(e) =>
      assert rest == [rest[0]] + [rest[1]];
      DelaysSingle(rest[0]); DelaysSingle(rest[1]); DelaysAppend([rest[0]], [rest[1]]);
    case Downloaded =>
      DownloadDelays(url, env.page, QcAt(env, n), LsAt(env, 0));
  }

  lemma RestWarms(url: string, env: FetchEnv, n: nat, ending: Ending)
    ensures WarmsGoTo(Rest(url, env, n, ending), url + WarmMarker)
  {
    if ending.Downloaded? {
      RestKindsLaw(url, env, n, ending);
      RestCounts(env.page, ending);
      NoneOfKind(Rest(url, env, n, ending), WarmKind);
    }
  }

  /** The kinds of the events of a fetch, in each ending. */
  lemma EndedKinds(url: string, env: FetchEnv, n: nat, ending: Ending)
    ensures Kinds(Ended(url, env, n, ending).trace) == WarmupKinds(n) + RestKinds(env.page, ending)
  {
    var w, rest := Warmup(url, n), Rest(url, env, n, ending);
    WarmupLaws(url, n);
    RestKindsLaw(url, env, n, ending);
    KindsAppend(w, rest);
  }

  /** The pauses of a fetch: those of its n warm-up rounds. */
  lemma EndedDelays(url: string, env: FetchEnv, n: nat, ending: Ending)
    ensures Delays(Ended(url, env, n, ending).trace) == Backoff(0, n)
    ensures |Backoff(0, n)| == n
  {
    var w, rest := Warmup(url, n), Rest(url, env, n, ending);
    WarmupLaws(url, n);
    RestDelays(url, env, n, ending);
    DelaysAppend(w, rest);
  }

  /** The warm-up GETs of a fetch all go to the page's URL with the warming marker. */
  lemma EndedWarms(url: string, env: FetchEnv, n: nat, ending: Ending)
    ensures WarmsGoTo(Ended(url, env, n, ending).trace, url + WarmMarker)
  {
    var w, rest := Warmup(url, n), Rest(url, env, n, ending);
    WarmupLaws(url, n);
    RestWarms(url, env, n, ending);
    WarmsGoToAppend(w, rest, url + WarmMarker);
  }

  /** How many events of each kind a fetch holds, in each ending. */
  lemma EndedCounts(url: string, env: FetchEnv, n: nat, ending: Ending)
    ensures var t := Ended(url, env, n, ending).trace;
      var page := env.page;
      var get := ending.Downloaded?;
      var answered := get && page.PageOk?;
      && Count(t, HeadKind) == n + 1
      && Count(t, SleepKind) == n
      && Count(t, WarmKind) == n + (if ending.WarmError? then 1 else 0)
      && Count(t, GetKind) == (if get then 1 else 0)
      && Count(t, CacheKind) == (if answered then 1 else 0)
      && Count(t, SlowKind) == (if answered && IsSlow(page.ms) then 1 else 0)
      && Count(t, ErrorKind) == (if !get || page.PageFailed? then 1
                                 else if IsHtmlPage(page.status, page.contentType) && page.body.Undecodable? then 1
                                 else 0)
  {
    EndedKinds(url, env, n, ending);
    RestCounts(env.page, ending);
  }

  /** The cache-performance row of a fetch that reached the GET phase. */
  lemma EndedCacheRows(url: string, env: FetchEnv, n: nat)
    requires env.page.PageOk?
    ensures CacheRowsAre(Ended(url, env, n, Downloaded).trace, url, QcAt(env, n), LsAt(env, 0), env.page.ms)
  {
    var w, rest := Warmup(url, n), Rest(url, env, n, Downloaded);
    WarmupLaws(url, n);
    NoneOfKind(w, CacheKind);
    DownloadCacheRows(url, env.page, QcAt(env, n), LsAt(env, 0));
    CacheRowsAppend(w, rest, url, QcAt(env, n), LsAt(env, 0), env.page.ms);
  }

  /** The slow-page row of a fetch that reached the GET phase. */
  lemma EndedSlowRows(url: string, env: FetchEnv, n: nat)
    requires env.page.PageOk?
    ensures SlowRowsAre(Ended(url, env, n, Downloaded).trace, url, env.page.ms)
  {
    var w, rest := Warmup(url, n), Rest(url, env, n, Downloaded);
    WarmupLaws(url, n);
    NoneOfKind(w, SlowKind);
    DownloadSlowRows(url, env.page, QcAt(env, n), LsAt(env, 0));
    SlowRowsAppend(w, rest, url, env.page.ms);
  }

  /** The endings that write an error row: a failed request, or an HTML body that cannot be decoded. */
  predicate ErrorEnding(page: Page, ending: Ending) {
    || !ending.Downloaded?
    || page.PageFailed?
    || (IsHtmlPage(page.status, page.contentType) && page.body.Undecodable?)
  }

  /** An error row of a fetch is its last event, and names the page's URL. */
  lemma EndedErrorLast(url: string, env: FetchEnv, n: nat, ending: Ending)
    requires ErrorEnding(env.page, ending)
    ensures var t := Ended(url, env, n, ending).trace;
      t[|t| - 1].ErrorRow? && t[|t| - 1].url == url
  {
    RestErrorLast(url, env, n, ending);
    LastOfAppend(Warmup(url, n), Rest(url, env, n, ending));
  }

  lemma RestErrorLast(url: string, env: FetchEnv, n: nat, ending: Ending)
    requires ErrorEnding(env.page, ending)
    ensures var rest := Rest(url, env, n, ending);
      rest != [] && rest[|rest| - 1].ErrorRow? && rest[|rest| - 1].url == url
  {
    match ending
    case ProbeError(_) =>
    case WarmError(_) =>
    case Downloaded =>
      DownloadErrorLast(url, env.page, QcAt(env, n), LsAt(env, 0));
  }

  lemma LastOfAppend(a: seq<Event>, b: seq<Event>)
    requires b != []
    ensures (a + b)[|a + b| - 1] == b[|b| - 1]
  {
  }

  /**
   * When every request the fetch sends before its GET is answered, a fetch is: the first probe,
   * then exactly the rounds the probes call for (the first probe that is not a miss ends
   * warming, after at most three rounds), then the GET phase, carrying the status of the last
   * probe and the LiteSpeed status of the first.
   */
  lemma FetchAnswered(url: string, env: FetchEnv)
    requires AnsweredThrough(env, RoundsNeeded(env, 0))
    ensures FetchSpec(url, env) == Ended(url, env, RoundsNeeded(env, 0), Downloaded)
  {
    WarmLoopUpTo(url, env, 0, RoundsNeeded(env, 0));
  }

  // ---------------------------------------------------------------- failures before the GET

  /** The error a probe failed with, or nothing when it was answered. */
  function ProbeFault(env: FetchEnv, k: nat): (f: Option<string>) {
    if ProbeAt(env, k).ProbeFailed? then Some(ProbeAt(env, k).error) else None
  }

  /** The error a warm-up GET failed with, or nothing when it was answered. */
  function WarmFault(env: FetchEnv, k: nat): (f: Option<string>) {
    if WarmAt(env, k).WarmFailed? then Some(WarmAt(env, k).error) else None
  }

  /** The faults of the requests of rounds `done + 1` to `n`, in issue order: warm-up GET, re-probe. */
  function RoundFaults(env: FetchEnv, done: nat, n: nat): (fs: seq<Option<string>>)
    requires done <= n
    ensures |fs| == 2 * (n - done)
    decreases n - done
  {
    if done == n then [] else [WarmFault(env, done), ProbeFault(env, done + 1)] + RoundFaults(env, done + 1, n)
  }

  /**
   * The faults of the requests a fetch issues before its GET, in issue order, when warming goes
   * on as long as the probes read a miss: the first probe, then the rounds they call for.
   */
  function Faults(env: FetchEnv): (fs: seq<Option<string>>)
    ensures |fs| == 1 + 2 * RoundsNeeded(env, 0)
  {
    [ProbeFault(env, 0)] + RoundFaults(env, 0, RoundsNeeded(env, 0))
  }

  /** The first fault of the list, or nothing when all its requests were answered. */
  function FirstFault(fs: seq<Option<string>>): (f: Option<string>) {
    if fs == [] then None
    else if fs[0].Some? then fs[0]
    else FirstFault(fs[1..])
  }

  lemma FirstFaultCons(x: Option<string>, rest: seq<Option<string>>)
    ensures FirstFault([x] + rest) == if x.Some? then x else FirstFault(rest)
  {
    assert ([x] + rest)[1..] == rest;
  }

  lemma FirstFaultOfRound(w: Option<string>, p: Option<string>, rest: seq<Option<string>>)
    ensures FirstFault([w, p] + rest) == if w.Some? then w else if p.Some? then p else FirstFault(rest)
  {
    assert [w, p] + rest == [w] + ([p] + rest);
    FirstFaultCons(w, [p] + rest);
    FirstFaultCons(p, rest);
  }

  /** No fault in rounds `done + 1` to `n` is exactly: each of their requests was answered. */
  lemma {:induction false} RoundFaultsNone(env: FetchEnv, done: nat, n: nat)
    requires done <= n
    ensures FirstFault(RoundFaults(env, done, n)).None? <==> RoundsAnswered(env, done, n)
    decreases n - done
  {
    if done < n {
      RoundFaultsNone(env, done + 1, n);
      FirstFaultOfRound(WarmFault(env, done), ProbeFault(env, done + 1), RoundFaults(env, done + 1, n));
      assert RoundFaults(env, done, n)
        == [WarmFault(env, done), ProbeFault(env, done + 1)] + RoundFaults(env, done + 1, n);
      RoundsAnsweredFront(env, done, n);
    } else {
      assert RoundFaults(env, done, n) == [];
    }
  }

  lemma RoundsAnsweredFront(env: FetchEnv, lo: nat, hi: nat)
    requires lo < hi
    ensures RoundsAnswered(env, lo, hi) <==>
      WarmAt(env, lo).WarmOk? && ProbeAt(env, lo + 1).ProbeOk? && RoundsAnswered(env, lo + 1, hi)
  {
    if WarmAt(env, lo).WarmOk? && ProbeAt(env, lo + 1).ProbeOk? && RoundsAnswered(env, lo + 1, hi) {
      forall j | lo <= j < hi ensures WarmAt(env, j).WarmOk? && ProbeAt(env, j + 1).ProbeOk? {
        if j > lo {
          assert lo + 1 <= j < hi;
        }
      }
    }
  }

  /**
   * From round `done` on, the warm-up loop gives up exactly when one of the requests of the
   * rounds the probes call for fails, and it gives up with the error of the first that does.
   */
  lemma {:induction false} WarmLoopFault(url: string, env: FetchEnv, done: nat)
    requires done <= MaxRetries
    ensures var f := FirstFault(RoundFaults(env, done, RoundsNeeded(env, done)));
      var w := WarmLoop(url, env, QcAt(env, done), done);
      && (w.Crashed? <==> f.Some?)
      && (w.Crashed? ==> w.error == f.value)
    decreases MaxRetries - done
  {
    if IsMiss(QcAt(env, done)) && done < MaxRetries {
      var k := done + 1;
      var n := RoundsNeeded(env, k);
      assert RoundsNeeded(env, done) == n;
      FirstFaultOfRound(WarmFault(env, done), ProbeFault(env, k), RoundFaults(env, k, n));
      if WarmAt(env, done).WarmOk? && ProbeAt(env, k).ProbeOk? {
        assert ProbeAt(env, k).qc.GetOr(Unknown) == QcAt(env, k);
        WarmLoopFault(url, env, k);
      }
    } else {
      assert RoundFaults(env, done, done) == [];
    }
  }

  /** A fault before the GET is exactly a request the fetch issues before its GET going unanswered. */
  lemma FaultsAnswered(env: FetchEnv)
    ensures FirstFault(Faults(env)).None? <==> AnsweredThrough(env, RoundsNeeded(env, 0))
  {
    var n := RoundsNeeded(env, 0);
    RoundFaultsNone(env, 0, n);
    FirstFaultCons(ProbeFault(env, 0), RoundFaults(env, 0, n));
  }

  /**
   * In every environment: when a request issued before the GET fails (the first probe, a
   * warm-up GET or a re-probe), the fetch writes one error row, as its last event, naming the
   * page and the error of the first request that failed; it issues no GET and returns nothing.
   */
  lemma FailureLaws(url: string, env: FetchEnv)
    ensures var r := FetchSpec(url, env);
      var t := r.trace;
      var f := FirstFault(Faults(env));
      && (f.Some? <==> !AnsweredThrough(env, RoundsNeeded(env, 0)))
      && (f.Some? ==>
            && r.result.None? && Count(t, GetKind) == 0 && Count(t, ErrorKind) == 1
            && t[|t| - 1] == ErrorRow(url, f.value))
  {
    FaultsAnswered(env);
    FirstFaultCons(ProbeFault(env, 0), RoundFaults(env, 0, RoundsNeeded(env, 0)));
    WarmLoopFault(url, env, 0);
    var n, ending := Outline(url, env);
    EndedCounts(url, env, n, ending);
    if !ending.Downloaded? {
      LastOfAppend(Warmup(url, n), Rest(url, env, n, ending));
    }
  }

  lemma NoWarming(url: string, env: FetchEnv) returns (ending: Ending)
    requires !IsMiss(QcAt(env, 0))
    ensures FetchSpec(url, env) == Ended(url, env, 0, ending)
    ensures ending.Downloaded? <==> ProbeAt(env, 0).ProbeOk?
  {
    assert Rounds(url, 0, 0) == [];
    ending := if ProbeAt(env, 0).ProbeOk? then Downloaded else ProbeError(ProbeAt(env, 0).error);
    if ProbeAt(env, 0).ProbeOk? {
      assert WarmLoop(url, env, QcAt(env, 0), 0) == Warmed(QcAt(env, 0), 0, []);
    }
  }

  /** A first probe that does not read a miss (an absent header included) means no warming. */
  lemma NoRetryUnlessMiss(url: string, env: FetchEnv)
    requires !IsMiss(QcAt(env, 0))
    ensures var t := FetchSpec(url, env).trace;
      && Count(t, WarmKind) == 0 && Delays(t) == [] && Count(t, HeadKind) == 1
      && (ProbeAt(env, 0).ProbeOk? ==>
            t == [Head(url)] + Download(url, env.page, QcAt(env, 0), LsAt(env, 0)).trace)
  {
    var ending := NoWarming(url, env);
    EndedCounts(url, env, 0, ending);
    EndedDelays(url, env, 0, ending);
    if ProbeAt(env, 0).ProbeOk? {
      NoWarmingTrace(url, env);
    }
  }

  lemma NoWarmingTrace(url: string, env: FetchEnv)
    ensures Ended(url, env, 0, Downloaded).trace
      == [Head(url)] + Download(url, env.page, QcAt(env, 0), LsAt(env, 0)).trace
  {
    assert Rounds(url, 0, 0) == [];
  }

  /**
   * Warming stops at the first re-probe that does not read a miss, whatever it reads, and the
   * full GET follows with the status of that probe: k rounds, k + 1 probes, one GET.
   */
  lemma EarlyExit(url: string, env: FetchEnv, k: nat)
    requires AnsweredThrough(env, k) && 1 <= k <= MaxRetries
    requires forall j :: 0 <= j < k ==> IsMiss(QcAt(env, j))
    requires !IsMiss(QcAt(env, k))
    ensures var t := FetchSpec(url, env).trace;
      && t == [Head(url)] + Rounds(url, 0, k) + Download(url, env.page, QcAt(env, k), LsAt(env, 0)).trace
      && Count(t, WarmKind) == k && Count(t, HeadKind) == k + 1 && Count(t, GetKind) == 1
  {
    FetchAnswered(url, env);
    assert RoundsNeeded(env, 0) == k;
    EndedCounts(url, env, k, Downloaded);
  }

  /** Three rounds in a row, and their pauses: 5, 10 and 15 seconds, 30 in all. */
  lemma ThreeRounds(url: string)
    ensures Rounds(url, 0, 3) == Round(url, 1) + Round(url, 2) + Round(url, 3)
    ensures Backoff(0, 3) == [5, 10, 15]
    ensures Sum(Backoff(0, 3)) == 30
  {
    assert Rounds(url, 0, 0) == [];
    assert Backoff(0, 0) == [];
    assert [5, 10, 15][..2] == [5, 10] && [5, 10][..1] == [5] && [5][..0] == [];
  }

  /**
   * When every probe reads a miss: three warm-up GETs, pauses of 5, 10 and 15 seconds (30 in
   * all), four probes, and still the full GET.
   */
  lemma AllMissWarmsThreeTimes(url: string, env: FetchEnv)
    requires AnsweredThrough(env, MaxRetries)
    requires forall k :: 0 <= k <= MaxRetries ==> IsMiss(QcAt(env, k))
    ensures var t := FetchSpec(url, env).trace;
      && t == [Head(url)] + Round(url, 1) + Round(url, 2) + Round(url, 3)
              + Download(url, env.page, QcAt(env, 3), LsAt(env, 0)).trace
      && Count(t, WarmKind) == 3 && Count(t, HeadKind) == 4 && Count(t, GetKind) == 1
      && Delays(t) == [5, 10, 15] && Sum(Delays(t)) == 30
  {
    FetchAnswered(url, env);
    AllMissRounds(env);
    AllMissTrace(url, env);
    EndedCounts(url, env, 3, Downloaded);
    AllMissDelays(url, env);
  }

  lemma AllMissTrace(url: string, env: FetchEnv)
    ensures Ended(url, env, 3, Downloaded).trace
      == [Head(url)] + Round(url, 1) + Round(url, 2) + Round(url, 3)
         + Download(url, env.page, QcAt(env, 3), LsAt(env, 0)).trace
  {
    ThreeRounds(url);
  }

  lemma AllMissDelays(url: string, env: FetchEnv)
    ensures Delays(Ended(url, env, 3, Downloaded).trace) == [5, 10, 15]
    ensures Sum([5, 10, 15]) == 30
  {
    EndedDelays(url, env, 3, Downloaded);
    ThreeRounds(url);
  }

  /** When every probe reads a miss, all three rounds are needed. */
  lemma AllMissRounds(env: FetchEnv)
    requires forall k :: 0 <= k <= MaxRetries ==> IsMiss(QcAt(env, k))
    ensures RoundsNeeded(env, 0) == 3
  {
    assert IsMiss(QcAt(env, RoundsNeeded(env, 0)));
  }

  /**
   * In every environment: at most three warm-up GETs, all to `url + "?qc-cache-warm"`; the
   * pauses are 5, 10, ... in order; one probe more than pauses; one warm-up GET per pause, or
   * one more when that GET failed and the fetch gave up; at most one full GET.
   */
  lemma RetryLaws(url: string, env: FetchEnv)
    ensures var r := FetchSpec(url, env);
      && Count(r.trace, WarmKind) <= MaxRetries
      && WarmsGoTo(r.trace, url + WarmMarker)
      && Delays(r.trace) == Backoff(0, |Delays(r.trace)|)
      && Count(r.trace, HeadKind) == 1 + |Delays(r.trace)|
      && (|| Count(r.trace, WarmKind) == |Delays(r.trace)|
          || (Count(r.trace, WarmKind) == |Delays(r.trace)| + 1 && r.result.None?))
      && Count(r.trace, GetKind) <= 1
  {
    var n, ending := Outline(url, env);
    EndedCounts(url, env, n, ending);
    EndedDelays(url, env, n, ending);
    EndedWarms(url, env, n, ending);
  }

  /**
   * In every environment: a slow-page row exactly when the GET was answered and took longer
   * than 500 ms, naming the page and the duration; a cache-performance row exactly when the GET
   * was answered, carrying the QUIC status the last probe read and the LiteSpeed status the
   * first probe read.
   */
  lemma RowLaws(url: string, env: FetchEnv)
    ensures var t := FetchSpec(url, env).trace;
      var answered := Count(t, GetKind) == 1 && env.page.PageOk?;
      && Count(t, HeadKind) >= 1
      && Count(t, CacheKind) == (if answered then 1 else 0)
      && Count(t, SlowKind) == (if answered && IsSlow(env.page.ms) then 1 else 0)
      && (answered ==>
            CacheRowsAre(t, url, QcAt(env, Count(t, HeadKind) - 1), LsAt(env, 0), env.page.ms))
      && (answered ==> SlowRowsAre(t, url, env.page.ms))
  {
    var n, ending := Outline(url, env);
    EndedCounts(url, env, n, ending);
    if ending.Downloaded? && env.page.PageOk? {
      EndedCacheRows(url, env, n);
      EndedSlowRows(url, env, n);
    }
  }

  /**
   * In every environment: the body comes back exactly when the GET was answered with status 200,
   * a Content-Type containing "text/html" and a decodable body. Any failure writes one error row,
   * as the last event, and returns nothing. An answered GET that is not status 200 with an HTML
   * Content-Type returns nothing and writes no error row, and that is the only way to return
   * nothing without one.
   */
  lemma ResultLaws(url: string, env: FetchEnv)
    ensures var r := FetchSpec(url, env);
      var t := r.trace;
      var page := env.page;
      && (r.result.Some? <==>
            && Count(t, GetKind) == 1 && page.PageOk?
            && IsHtmlPage(page.status, page.contentType) && page.body.Decoded?)
      && (r.result.Some? ==> r.result.value == page.body.text)
      && Count(t, ErrorKind) <= 1
      && (Count(t, ErrorKind) == 1 ==> r.result.None? && t[|t| - 1].ErrorRow? && t[|t| - 1].url == url)
      && (r.result.None? && Count(t, ErrorKind) == 0 ==>
            page.PageOk? && !IsHtmlPage(page.status, page.contentType))
      && (Count(t, GetKind) == 1 && page.PageOk? && !IsHtmlPage(page.status, page.contentType) ==>
            r.result.None? && Count(t, ErrorKind) == 0)
  {
    var n, ending := Outline(url, env);
    EndedCounts(url, env, n, ending);
    if ending.Downloaded? {
      DownloadResult(url, env.page, QcAt(env, n), LsAt(env, 0));
    }
    if ErrorEnding(env.page, ending) {
      EndedErrorLast(url, env, n, ending);
    }
  }
}
