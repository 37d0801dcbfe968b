/**
 * A sitemap index at work: the site's sitemap lists two nested sitemaps (the first with white
 * space around it), which list the pages, one of them twice.
 */
module SitemapExamples {
  import opened Options
  import opened Text
  import opened Sitemap

  function IndexWeb(): (web: Web) {
    map[
      "https://s/sitemap.xml" := Reply(200, Parsed(IndexLocs())),
      "https://s/a-sitemap.xml" := Reply(200, Parsed([Some("https://s/1"), Some("https://s/2")])),
      "https://s/b-sitemap.xml" := Reply(200, Parsed([Some("https://s/3"), Some("https://s/1")]))]
  }

  function IndexLocs(): (locs: seq<Option<string>>) {
    [Some(" https://s/a-sitemap.xml\n"), Some("https://s/b-sitemap.xml")]
  }

  /** The nested sitemaps list pages only, so at any depth they yield their entries as listed. */
  lemma LeafPages(fuel: nat)
    ensures Flatten(IndexWeb(), "https://s/a-sitemap.xml", fuel) == ["https://s/1", "https://s/2"]
    ensures Flatten(IndexWeb(), "https://s/b-sitemap.xml", fuel) == ["https://s/3", "https://s/1"]
  {
    PageNames();
    LeafPagesOf(IndexWeb(), "https://s/a-sitemap.xml", "https://s/1", "https://s/2", fuel);
    LeafPagesOf(IndexWeb(), "https://s/b-sitemap.xml", "https://s/3", "https://s/1", fuel);
  }

  /** A sitemap listing two page URLs yields them, in order. */
  lemma LeafPagesOf(web: Web, u: string, p: string, q: string, fuel: nat)
    requires u in web && web[u] == Reply(200, Parsed([Some(p), Some(q)]))
    requires PageUrl(p) && PageUrl(q)
    ensures Flatten(web, u, fuel) == [p, q]
  {
    var locs := [Some(p), Some(q)];
    FlatSitemap(web, locs, fuel);
    assert Texts(locs) == [p, q];
  }

  /** The pages of the example are page URLs: none ends with ".xml" and none has white space around it. */
  lemma PageNames()
    ensures PageUrl("https://s/1") && PageUrl("https://s/2") && PageUrl("https://s/3")
  {
    StripTrimmed("https://s/1");
    StripTrimmed("https://s/2");
    StripTrimmed("https://s/3");
    assert !EndsWith("https://s/1", ".xml") && !EndsWith("https://s/2", ".xml") && !EndsWith("https://s/3", ".xml");
  }

  lemma StripFirstEntry()
    ensures Strip(" https://s/a-sitemap.xml\n") == "https://s/a-sitemap.xml"
  {
    LeadingOfFirstEntry();
    TrailingOfFirstEntry();
    assert " https://s/a-sitemap.xml\n"[1..] == "https://s/a-sitemap.xml\n";
    assert "https://s/a-sitemap.xml\n"[..23] == "https://s/a-sitemap.xml";
  }

  lemma LeadingOfFirstEntry()
    ensures LeadingSpaces(" https://s/a-sitemap.xml\n") == 1
  {
    assert " https://s/a-sitemap.xml\n"[1..] == "https://s/a-sitemap.xml\n";
    assert !IsSpace('h');
  }

  lemma TrailingOfFirstEntry()
    ensures TrailingSpaces("https://s/a-sitemap.xml\n") == 1
  {
    assert "https://s/a-sitemap.xml\n"[..23] == "https://s/a-sitemap.xml";
    assert !IsSpace('l');
  }

  lemma NestedNames()
    ensures IsNestedSitemap("https://s/a-sitemap.xml") && IsNestedSitemap("https://s/b-sitemap.xml")
  {
    assert "https://s/a-sitemap.xml"[12..19] == "sitemap";
    assert OccursAt("https://s/a-sitemap.xml", "sitemap", 12);
    assert "https://s/b-sitemap.xml"[12..19] == "sitemap";
    assert OccursAt("https://s/b-sitemap.xml", "sitemap", 12);
  }

  /** A sitemap of two entries yields what each of them contributes, in order. */
  lemma TwoEntries(web: Web, x: string, y: string, fuel: nat)
    ensures FlattenLocs(web, [Some(x), Some(y)], fuel) == Contribution(web, x, fuel) + Contribution(web, y, fuel)
  {
    var locs := [Some(x), Some(y)];
    assert locs[1..] == [Some(y)] && locs[1..][1..] == [];
    assert FlattenLocs(web, [Some(y)], fuel) == Contribution(web, y, fuel) + [];
  }

  lemma ContributionOfA()
    ensures Contribution(IndexWeb(), " https://s/a-sitemap.xml\n", 1) == ["https://s/1", "https://s/2"]
  {
    StripFirstEntry();
    NestedNames();
    LeafPages(0);
  }

  lemma ContributionOfB()
    ensures Contribution(IndexWeb(), "https://s/b-sitemap.xml", 1) == ["https://s/3", "https://s/1"]
  {
    StripTrimmed("https://s/b-sitemap.xml");
    NestedNames();
    LeafPages(0);
  }

  /** One level of descent reaches the pages of both nested sitemaps, in order, repeats kept. */
  lemma TwoLevelIndex()
    ensures Flatten(IndexWeb(), "https://s/sitemap.xml", 1) == ["https://s/1", "https://s/2", "https://s/3", "https://s/1"]
  {
    var web := IndexWeb();
    assert "https://s/sitemap.xml" in web && web["https://s/sitemap.xml"] == Reply(200, Parsed(IndexLocs()));
    assert Flatten(web, "https://s/sitemap.xml", 1) == FlattenLocs(web, IndexLocs(), 1);
    TwoEntries(web, " https://s/a-sitemap.xml\n", "https://s/b-sitemap.xml", 1);
    ContributionOfA();
    ContributionOfB();
  }

  /** With no depth left both nested sitemaps are past the limit and add nothing. */
  lemma IndexAtDepthZero()
    ensures Flatten(IndexWeb(), "https://s/sitemap.xml", 0) == []
  {
    var web := IndexWeb();
    assert "https://s/sitemap.xml" in web && web["https://s/sitemap.xml"] == Reply(200, Parsed(IndexLocs()));
    assert Flatten(web, "https://s/sitemap.xml", 0) == FlattenLocs(web, IndexLocs(), 0);
    TwoEntries(web, " https://s/a-sitemap.xml\n", "https://s/b-sitemap.xml", 0);
    StripFirstEntry();
    StripTrimmed("https://s/b-sitemap.xml");
    NestedNames();
  }

  /**
   * A nested sitemap past the depth limit adds nothing, but the walk goes on: a page listed
   * after it is still found.
   */
  lemma PageAfterDepthLimit()
    ensures FlattenLocs(IndexWeb(), [Some("https://s/a-sitemap.xml"), Some("https://s/1")], 0) == ["https://s/1"]
  {
    var web := IndexWeb();
    TwoEntries(web, "https://s/a-sitemap.xml", "https://s/1", 0);
    NestedAtDepthZero();
    PageAtDepthZero();
  }

  lemma NestedAtDepthZero()
    ensures Contribution(IndexWeb(), "https://s/a-sitemap.xml", 0) == []
  {
    StripTrimmed("https://s/a-sitemap.xml");
    NestedNames();
  }

  lemma PageAtDepthZero()
    ensures Contribution(IndexWeb(), "https://s/1", 0) == ["https://s/1"]
  {
    StripTrimmed("https://s/1");
    assert !EndsWith("https://s/1", ".xml");
  }
}
