/**
 * `AsyncWebCrawler.fetch_sitemap`: download a sitemap, read every `<loc>` element in document
 * order, descend into the entries that name another sitemap and keep every other entry as a
 * page URL.
 *
 * The network is a map from URL to the reply a GET of that URL receives; a URL it does not
 * hold fails (a timeout or a refused connection). XML parsing is done before the model sees
 * the reply: a document is the sequence of the texts of its `<loc>` elements, `None` for an
 * element without text, or `Malformed` when the body is not well-formed XML or not text.
 */
module Sitemap {
  import opened Options
  import opened Text

  /** The path the default sitemap lives at. */
  const SitemapPath := "/sitemap.xml"

  datatype Document = Parsed(locs: seq<Option<string>>) | Malformed

  /** The answer to the GET of a sitemap: its status and its parsed body. */
  datatype Reply = Reply(status: int, document: Document)

  type Web = map<string, Reply>

  /** An entry names another sitemap when it contains "sitemap" and ends with ".xml". */
  predicate IsNestedSitemap(u: string)
  {
    Contains(u, "sitemap") && EndsWith(u, ".xml")
  }

  /** An entry names a sitemap exactly when "sitemap" occurs in it and it is some string followed by ".xml". */
  lemma IsNestedSitemapSpec(u: string)
    ensures IsNestedSitemap(u) <==> (exists i :: OccursAt(u, "sitemap", i)) && exists p :: p + ".xml" == u
  {
    EndsWithSpec(u, ".xml");
  }

  // ---------------------------------------------------------------- the default location

  predicate IsNetlocEnd(c: char) {
    c == '/' || c == '?' || c == '#'
  }

  /** The length of the network location at the start of `s`: up to the first '/', '?' or '#'. */
  function NetlocLength(s: string): (n: nat)
    ensures n <= |s|
    ensures forall i :: 0 <= i < n ==> !IsNetlocEnd(s[i])
    ensures n < |s| ==> IsNetlocEnd(s[n])
    decreases |s|
  {
    if s == [] || IsNetlocEnd(s[0]) then 0 else 1 + NetlocLength(s[1..])
  }

  /**
   * A character `urlsplit` keeps in a host as it is: printable ASCII other than the brackets
   * of an IPv6 literal and the characters that end the network location.
   */
  predicate HostChar(c: char) {
    ' ' <= c <= '~' && c != '[' && c != ']' && !IsNetlocEnd(c)
  }

  /**
   * The scheme and network location of a web URL, "" when it does not start with `http://` or
   * `https://`.
   */
  function Origin(base: string): (o: string) {
    if |base| >= 7 && base[..7] == "http://" then
      "http://" + base[7..][..NetlocLength(base[7..])]
    else if |base| >= 8 && base[..8] == "https://" then
      "https://" + base[8..][..NetlocLength(base[8..])]
    else ""
  }

  /**
   * `urljoin(base, "/sitemap.xml")`: a leading part of the base (its scheme and host, or
   * nothing) followed by the sitemap path.
   */
  function DefaultSitemapUrl(base: string): (u: string)
    ensures EndsWith(u, SitemapPath)
    ensures u[..|u| - |SitemapPath|] <= base
  {
    var o := Origin(base);
    assert (o + SitemapPath)[..|o|] == o;
    o + SitemapPath
  }

  /**
   * Joining an absolute path replaces the path, query and fragment of the base and keeps its
   * scheme and host (user-info and port included).
   */
  lemma DefaultSitemapOfWebUrl(scheme: string, host: string, rest: string)
    requires scheme == "http" || scheme == "https"
    requires forall i :: 0 <= i < |host| ==> HostChar(host[i])
    requires rest == [] || IsNetlocEnd(rest[0])
    ensures DefaultSitemapUrl(scheme + "://" + host + rest) == scheme + "://" + host + SitemapPath
  {
    var p := scheme + "://";
    var base := p + host + rest;
    assert base[..|p|] == p;
    assert base[|p|..] == host + rest;
    NetlocOf(host, rest);
    assert (host + rest)[..|host|] == host;
    if scheme == "https" {
      assert base[4] == 's';
    }
  }

  lemma {:induction false} NetlocOf(host: string, rest: string)
    requires forall i :: 0 <= i < |host| ==> !IsNetlocEnd(host[i])
    requires rest == [] || IsNetlocEnd(rest[0])
    ensures NetlocLength(host + rest) == |host|
    decreases |host|
  {
    if host != [] {
      assert (host + rest)[1..] == host[1..] + rest;
      NetlocOf(host[1..], rest);
    } else {
      assert host + rest == rest;
    }
  }

  /**
   * The model's fallback: a base that does not start with `http://` or `https://` is given the
   * bare path.
   */
  lemma DefaultSitemapOfRelative(base: string)
    requires !(|base| >= 7 && base[..7] == "http://") && !(|base| >= 8 && base[..8] == "https://")
    ensures DefaultSitemapUrl(base) == SitemapPath
  {
  }

  // ---------------------------------------------------------------- specification

  /** A sitemap entry kept as a page URL: it names no sitemap and has no surrounding white space. */
  predicate PageUrl(u: string) {
    !IsNestedSitemap(u) && Strip(u) == u
  }

  predicate AllPageUrls(urls: seq<string>) {
    forall i :: 0 <= i < |urls| ==> PageUrl(urls[i])
  }

  lemma PageUrlsAppend(a: seq<string>, b: seq<string>)
    requires AllPageUrls(a) && AllPageUrls(b)
    ensures AllPageUrls(a + b)
  {
    forall i | 0 <= i < |a + b| ensures PageUrl((a + b)[i]) {
      if i >= |a| { assert (a + b)[i] == b[i - |a|]; }
    }
  }

  /**
   * The page URLs reached from the sitemap at `url`, descending at most `fuel` levels into
   * nested sitemaps. A sitemap that fails to download, answers with a status other than 200 or
   * is not well-formed contributes nothing.
   */
  function Flatten(web: Web, url: string, fuel: nat): (urls: seq<string>)
    decreases fuel, 1
  {
    if url !in web then []
    else
      var reply := web[url];
      if reply.status != 200 then []
      else
        match reply.document
        case Malformed => []
        case Parsed(locs) => FlattenLocs(web, locs, fuel)
  }

  /**
   * The page URLs reached from `locs`, in order: a page URL stands for itself, a nested sitemap
   * for what it reaches. An entry without text ends the walk of this document (`None.strip()`
   * raises inside the `try`): what came before it is kept.
   */
  function FlattenLocs(web: Web, locs: seq<Option<string>>, fuel: nat): (urls: seq<string>)
    decreases fuel, 0, |locs|
  {
    if locs == [] || locs[0].None? then []
    else Contribution(web, locs[0].value, fuel) + FlattenLocs(web, locs[1..], fuel)
  }

  /**
   * What one entry with text `raw` adds: itself, once stripped, or what the sitemap it names
   * reaches. A nested sitemap past the depth limit adds nothing: the nested call fails inside
   * its own `try` and returns an empty list.
   */
  function Contribution(web: Web, raw: string, fuel: nat): (urls: seq<string>)
    decreases fuel, 0, 0
  {
    var u := Strip(raw);
    if !IsNestedSitemap(u) then [u]
    else if fuel == 0 then []
    else Flatten(web, u, fuel - 1)
  }

  /**
   * What one entry adds is made of page URLs: the entry itself, stripped, when it names no
   * sitemap; what the sitemap it names reaches one level deeper, when depth is left; and nothing
   * when it names a sitemap past the depth limit, missing, not answering 200 or malformed.
   */
  lemma ContributionSpec(web: Web, raw: string, fuel: nat)
    ensures var u := Strip(raw); var c := Contribution(web, raw, fuel);
      && AllPageUrls(c)
      && (!IsNestedSitemap(u) ==> c == [u])
      && (IsNestedSitemap(u) && fuel > 0 ==> c == Flatten(web, u, fuel - 1))
      && (IsNestedSitemap(u) && (fuel == 0 || u !in web || web[u].status != 200 || web[u].document.Malformed?)
          ==> c == [])
  {
    var u := Strip(raw);
    if !IsNestedSitemap(u) {
      StripIdempotent(raw);
    } else if fuel > 0 {
      FlattenPageUrls(web, u, fuel - 1);
    }
  }

  /**
   * Every URL the walk yields is a page URL: none names a sitemap (those are descended into)
   * and none has white space around it.
   */
  lemma {:induction false} FlattenPageUrls(web: Web, url: string, fuel: nat)
    ensures AllPageUrls(Flatten(web, url, fuel))
    decreases fuel, 1
  {
    if url in web && web[url].status == 200 && web[url].document.Parsed? {
      FlattenLocsPageUrls(web, web[url].document.locs, fuel);
    }
  }

  lemma {:induction false} FlattenLocsPageUrls(web: Web, locs: seq<Option<string>>, fuel: nat)
    ensures AllPageUrls(FlattenLocs(web, locs, fuel))
    decreases fuel, 0, |locs|
  {
    if locs != [] && locs[0].Some? {
      var u := Strip(locs[0].value);
      FlattenLocsPageUrls(web, locs[1..], fuel);
      if IsNestedSitemap(u) {
        if fuel > 0 {
          FlattenPageUrls(web, u, fuel - 1);
        }
      } else {
        StripIdempotent(locs[0].value);
      }
      PageUrlsAppend(Contribution(web, locs[0].value, fuel), FlattenLocs(web, locs[1..], fuel));
    }
  }

  /** The stripped texts of entries that all have text. */
  function Texts(locs: seq<Option<string>>): (us: seq<string>)
    requires forall i :: 0 <= i < |locs| ==> locs[i].Some?
    ensures |us| == |locs|
  {
    seq(|locs|, i requires 0 <= i < |locs| => Strip(locs[i].value))
  }

  /**
   * A sitemap whose entries all have text and name no sitemap yields exactly those entries,
   * stripped, in document order and with repeats kept.
   */
  lemma {:induction false} FlatSitemap(web: Web, locs: seq<Option<string>>, fuel: nat)
    requires forall i :: 0 <= i < |locs| ==> locs[i].Some? && !IsNestedSitemap(Strip(locs[i].value))
    ensures FlattenLocs(web, locs, fuel) == Texts(locs)
    decreases |locs|
  {
    if locs != [] {
      FlatSitemap(web, locs[1..], fuel);
      assert Contribution(web, locs[0].value, fuel) == [Strip(locs[0].value)];
      TextsCons(locs);
    }
  }

  lemma TextsCons(locs: seq<Option<string>>)
    requires locs != [] && forall i :: 0 <= i < |locs| ==> locs[i].Some?
    ensures Texts(locs) == [Strip(locs[0].value)] + Texts(locs[1..])
  {
    var r := [Strip(locs[0].value)] + Texts(locs[1..]);
    forall i | 0 <= i < |locs| ensures Texts(locs)[i] == r[i] {
      if i > 0 { assert r[i] == Texts(locs[1..])[i - 1]; }
    }
  }

  /** Entries that all have text can be walked apart from what follows them. */
  lemma {:induction false} FlattenLocsAppend(web: Web, a: seq<Option<string>>, b: seq<Option<string>>, fuel: nat)
    requires forall i :: 0 <= i < |a| ==> a[i].Some?
    ensures FlattenLocs(web, a + b, fuel) == FlattenLocs(web, a, fuel) + FlattenLocs(web, b, fuel)
    decreases |a|
  {
    if a == [] {
      assert a + b == b;
    } else {
      assert (a + b)[0] == a[0] && (a + b)[1..] == a[1..] + b;
      assert forall i :: 0 <= i < |a[1..]| ==> a[1..][i] == a[i + 1];
      FlattenLocsAppend(web, a[1..], b, fuel);
    }
  }

  /**
   * The first entry without text ends the walk: the result is what the entries before it
   * yield, and nothing after it counts.
   */
  lemma StopsAt(web: Web, locs: seq<Option<string>>, i: nat, fuel: nat)
    requires i < |locs| && locs[i].None?
    requires forall j :: 0 <= j < i ==> locs[j].Some?
    ensures FlattenLocs(web, locs, fuel) == FlattenLocs(web, locs[..i], fuel)
  {
    assert locs == locs[..i] + locs[i..];
    FlattenLocsAppend(web, locs[..i], locs[i..], fuel);
    FlattenLocsAt(web, locs, i, fuel);
  }

  /**
   * A nested sitemap with depth left is descended into: what it reaches, one level deeper,
   * takes its place in the walk, before what the entries after it yield.
   */
  lemma NestedSpliced(web: Web, raw: string, rest: seq<Option<string>>, fuel: nat)
    requires IsNestedSitemap(Strip(raw)) && fuel > 0
    ensures FlattenLocs(web, [Some(raw)] + rest, fuel)
      == Flatten(web, Strip(raw), fuel - 1) + FlattenLocs(web, rest, fuel)
  {
    assert ([Some(raw)] + rest)[1..] == rest;
  }

  /**
   * A nested sitemap past the depth limit, or one that cannot be fetched, answers with a status
   * other than 200 or is not well-formed, adds nothing, and the walk goes on with the next entry.
   */
  lemma FailedNestedSkipped(web: Web, raw: string, rest: seq<Option<string>>, fuel: nat)
    requires IsNestedSitemap(Strip(raw))
    requires var u := Strip(raw);
      fuel == 0 || u !in web || web[u].status != 200 || web[u].document.Malformed?
    ensures FlattenLocs(web, [Some(raw)] + rest, fuel) == FlattenLocs(web, rest, fuel)
  {
    assert ([Some(raw)] + rest)[1..] == rest;
    assert Contribution(web, raw, fuel) == [];
    assert [] + FlattenLocs(web, rest, fuel) == FlattenLocs(web, rest, fuel);
  }

  /**
   * A sitemap that lists only itself yields nothing at any depth: the descent ends at the
   * depth limit, and each level adds nothing.
   */
  lemma {:induction false} SelfListingSitemap(web: Web, u: string, fuel: nat)
    requires IsNestedSitemap(u) && Strip(u) == u
    requires u in web && web[u] == Reply(200, Parsed([Some(u)]))
    ensures Flatten(web, u, fuel) == []
  {
    var locs := [Some(u)];
    assert locs[1..] == [];
    if fuel > 0 {
      SelfListingSitemap(web, u, fuel - 1);
    }
    assert Contribution(web, u, fuel) == [];
    assert FlattenLocs(web, locs, fuel) == [] + [];
  }

  /** The walk of `locs` from entry i on, one entry at a time. */
  lemma FlattenLocsAt(web: Web, locs: seq<Option<string>>, i: nat, fuel: nat)
    requires i < |locs|
    ensures locs[i].None? ==> FlattenLocs(web, locs[i..], fuel) == []
    ensures locs[i].Some? ==>
      FlattenLocs(web, locs[i..], fuel) == Contribution(web, locs[i].value, fuel) + FlattenLocs(web, locs[i + 1..], fuel)
  {
    assert locs[i..][0] == locs[i] && locs[i..][1..] == locs[i + 1..];
  }

  // ---------------------------------------------------------------- the method

  /**
   * `AsyncWebCrawler.fetch_sitemap(session, url)`; `fuel` is how many levels of nested sitemaps
   * the call may still descend into before a nested call meets the recursion limit.
   */
  method FetchSitemap(web: Web, baseUrl: string, url: Option<string>, fuel: nat) returns (urls: seq<string>)
    ensures urls == Flatten(web, if url.None? then DefaultSitemapUrl(baseUrl) else url.value, fuel)
    decreases fuel, 1
  {
    var target := if url.None? then DefaultSitemapUrl(baseUrl) else url.value;
    urls := [];
    if target !in web {
      return;
    }
    var reply := web[target];
    if reply.status != 200 || reply.document.Malformed? {
      return;
    }
    urls := WalkLocs(web, baseUrl, reply.document.locs, fuel);
  }

  /** The `for elem in root.findall(...)` loop of `fetch_sitemap`, inside its `try`. */
  method WalkLocs(web: Web, baseUrl: string, locs: seq<Option<string>>, fuel: nat) returns (urls: seq<string>)
    ensures urls == FlattenLocs(web, locs, fuel)
    decreases fuel, 0
  {
    urls := [];
    var i := 0;
    WalkStart(web, locs, fuel);
    while i < |locs|
      invariant 0 <= i <= |locs|
      invariant Walked(web, locs, i, fuel, urls)
    {
      if locs[i].None? {
        WalkStop(web, locs, i, fuel, urls);
        return;
      }
      var u := Strip(locs[i].value);
      var part;
      if IsNestedSitemap(u) {
        if fuel == 0 {
          // the nested call meets the recursion limit inside its own `try` and returns []
          part := [];
        } else {
          part := FetchSitemap(web, baseUrl, Some(u), fuel - 1);
        }
      } else {
        part := [u];
      }
      WalkStep(web, locs, i, fuel, urls, part);
      urls := urls + part;
      i := i + 1;
    }
    WalkEnd(web, locs, fuel, urls);
  }

  /** After i entries the walk has gathered `urls`, and the entries from i on yield the rest. */
  predicate Walked(web: Web, locs: seq<Option<string>>, i: nat, fuel: nat, urls: seq<string>)
    requires i <= |locs|
  {
    urls + FlattenLocs(web, locs[i..], fuel) == FlattenLocs(web, locs, fuel)
  }

  lemma WalkStart(web: Web, locs: seq<Option<string>>, fuel: nat)
    ensures Walked(web, locs, 0, fuel, [])
  {
    assert locs[0..] == locs;
    assert [] + FlattenLocs(web, locs, fuel) == FlattenLocs(web, locs, fuel);
  }

  /** An entry without text leaves what was gathered before it as the whole result. */
  lemma WalkStop(web: Web, locs: seq<Option<string>>, i: nat, fuel: nat, urls: seq<string>)
    requires i < |locs| && Walked(web, locs, i, fuel, urls)
    requires locs[i].None?
    ensures urls == FlattenLocs(web, locs, fuel)
  {
    FlattenLocsAt(web, locs, i, fuel);
    assert urls + [] == urls;
  }

  /** What the loop body gathers for an entry with text `raw` is that entry's contribution. */
  lemma StepPart(web: Web, raw: string, fuel: nat, part: seq<string>)
    requires var u := Strip(raw);
      if !IsNestedSitemap(u) then part == [u]
      else if fuel == 0 then part == []
      else part == Flatten(web, u, fuel - 1)
    ensures part == Contribution(web, raw, fuel)
  {
  }

  /** An entry with text adds its contribution to what was gathered. */
  lemma WalkStep(web: Web, locs: seq<Option<string>>, i: nat, fuel: nat, urls: seq<string>, part: seq<string>)
    requires i < |locs| && Walked(web, locs, i, fuel, urls) && locs[i].Some?
    requires var u := Strip(locs[i].value);
      if !IsNestedSitemap(u) then part == [u]
      else if fuel == 0 then part == []
      else part == Flatten(web, u, fuel - 1)
    ensures Walked(web, locs, i + 1, fuel, urls + part)
  {
    StepPart(web, locs[i].value, fuel, part);
    FlattenLocsAt(web, locs, i, fuel);
    var rest := FlattenLocs(web, locs[i + 1..], fuel);
    assert FlattenLocs(web, locs[i..], fuel) == part + rest;
    assert urls + (part + rest) == (urls + part) + rest;
  }

  lemma WalkEnd(web: Web, locs: seq<Option<string>>, fuel: nat, urls: seq<string>)
    requires Walked(web, locs, |locs|, fuel, urls)
    ensures urls == FlattenLocs(web, locs, fuel)
  {
    assert locs[|locs|..] == [];
    assert urls + [] == urls;
  }
}
