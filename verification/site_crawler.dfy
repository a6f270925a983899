/** The site crawler (`modules/data-collection/class-site-crawler.php`): which
    URLs are crawled, what is read from each page, and which results are
    kept. The HTTP fetch is an input; the DOM queries' answers, `json_decode`
    and `str_word_count` are parameters. */
module SiteCrawler {
  import opened Common
  import opened Text
  import opened Sorting
  import TechnicalAnalyzer

  const DefaultMaxPages := 100

  // ---------------------------------------------------------------- URLs

  /** `get_urls_to_crawl()`: the homepage, then the permalinks of the
      published posts and pages, each URL once, first occurrence kept. */
  function GetUrlsToCrawl(siteUrl: string, permalinks: seq<string>): (r: seq<string>)
    ensures |r| > 0 && r[0] == siteUrl
    ensures Distinct(r)
    ensures forall u :: u in r <==> u == siteUrl || u in permalinks
    ensures forall i, j :: 0 <= i < j < |r| ==>
      FirstIndex([siteUrl] + permalinks, r[i]) < FirstIndex([siteUrl] + permalinks, r[j])
  {
    var all := [siteUrl] + permalinks;
    var r := Dedupe(all);
    DedupeOrder(all);
    assert forall u :: u in all <==> u == siteUrl || u in permalinks;
    forall u | u in all ensures u in r {
      var k :| 0 <= k < |all| && all[k] == u;
    }
    r
  }

  // ---------------------------------------------------------------- links

  datatype LinkKind = Internal | External | Neither

  /** Lines 162-167: internal when the href contains the site URL or starts
      with "/", otherwise external when it starts with "http". */
  function Classify(href: string, siteUrl: string): (k: LinkKind)
    ensures k == Internal <==> Contains(href, siteUrl) || StartsWith(href, "/")
    ensures k == External <==> !Contains(href, siteUrl) && !StartsWith(href, "/") && StartsWith(href, "http")
  {
    if Contains(href, siteUrl) || StartsWith(href, "/") then Internal
    else if StartsWith(href, "http") then External
    else Neither
  }

  function CountKind(hrefs: seq<string>, siteUrl: string, kind: LinkKind): (n: nat)
    ensures n <= |hrefs|
  {
    if |hrefs| == 0 then 0
    else (if Classify(hrefs[0], siteUrl) == kind then 1 else 0) + CountKind(hrefs[1..], siteUrl, kind)
  }

  /** Every href is internal, external or neither, so the two counts never
      exceed the number of links. */
  lemma {:induction false} LinkCountsPartition(hrefs: seq<string>, siteUrl: string)
    ensures CountKind(hrefs, siteUrl, Internal) + CountKind(hrefs, siteUrl, External) + CountKind(hrefs, siteUrl, Neither) == |hrefs|
  {
    if |hrefs| > 0 {
      LinkCountsPartition(hrefs[1..], siteUrl);
    }
  }

  /** Lines 159-168, counted one link at a time. */
  method CountLinks(hrefs: seq<string>, siteUrl: string) returns (internal: nat, external: nat)
    ensures internal == CountKind(hrefs, siteUrl, Internal) && external == CountKind(hrefs, siteUrl, External)
    ensures internal + external <= |hrefs|
  {
    internal, external := 0, 0;
    var i := |hrefs|;
    while i > 0
      invariant 0 <= i <= |hrefs|
      invariant internal == CountKind(hrefs[i..], siteUrl, Internal)
      invariant external == CountKind(hrefs[i..], siteUrl, External)
    {
      i := i - 1;
      assert hrefs[i..][1..] == hrefs[i + 1..];
      var k := Classify(hrefs[i], siteUrl);
      if k == Internal {
        internal := internal + 1;
      } else if k == External {
        external := external + 1;
      }
    }
    LinkCountsPartition(hrefs, siteUrl);
  }

  /** Relative links are all internal, whatever the site URL. */
  lemma {:induction false} RelativeLinksInternal(hrefs: seq<string>, siteUrl: string)
    requires forall k :: 0 <= k < |hrefs| ==> StartsWith(hrefs[k], "/")
    ensures CountKind(hrefs, siteUrl, Internal) == |hrefs|
  {
    if |hrefs| > 0 {
      RelativeLinksInternal(hrefs[1..], siteUrl);
    }
  }

  // ---------------------------------------------------------------- images

  /** An image's alt attribute: None when the attribute is absent. */
  predicate MissingAlt(alt: Option<string>) {
    alt.None? || PhpEmpty(alt.value)
  }

  /** Lines 171-177: images whose alt is absent or empty ("0" included). */
  function ImagesWithoutAlt(alts: seq<Option<string>>): (n: nat)
    ensures n <= |alts|
    ensures n == 0 <==> forall k :: 0 <= k < |alts| ==> !MissingAlt(alts[k])
    ensures n == |alts| <==> forall k :: 0 <= k < |alts| ==> MissingAlt(alts[k])
  {
    if |alts| == 0 then 0
    else
      var rest := ImagesWithoutAlt(alts[1..]);
      assert forall k :: 1 <= k < |alts| ==> alts[k] == alts[1..][k - 1];
      (if MissingAlt(alts[0]) then 1 else 0) + rest
  }

  // ---------------------------------------------------------------- robots

  /** Lines 136-141: the first robots meta tag's content, lower-cased, is
      searched for "noindex" and "nofollow"; without the tag both are false. */
  function RobotsFlags(robots: seq<string>): (r: (bool, bool))
    ensures robots == [] ==> r == (false, false)
    ensures robots != [] ==> (r.0 <==> Contains(Lower(robots[0]), "noindex")) && (r.1 <==> Contains(Lower(robots[0]), "nofollow"))
  {
    if robots == [] then (false, false)
    else (Contains(Lower(robots[0]), "noindex"), Contains(Lower(robots[0]), "nofollow"))
  }

  /** The test ignores case: "NOINDEX" counts. */
  lemma UpperCaseNoindex()
    ensures RobotsFlags(["NOINDEX, FOLLOW"]).0
  {
    var s := Lower("NOINDEX, FOLLOW");
    assert s[..7] == "noindex";
    OccursContains(s, "noindex", 0);
  }

  // ---------------------------------------------------------------- parsing

  /** The answers of the XPath queries `parse_html` makes, in document
      order: text of `title`s and `h1`s, `content` of the description and
      robots metas, `href` of canonical links and of anchors, the text of
      JSON-LD scripts, each `img`'s alt, og:/twitter: properties, and the
      body's text. */
  datatype Dom = Dom(titles: seq<string>, descriptions: seq<string>, h1s: seq<string>, robots: seq<string>,
                     canonicals: seq<string>, ldJson: seq<string>, hrefs: seq<string>, alts: seq<Option<string>>,
                     openGraph: seq<(string, string)>, twitter: seq<(string, string)>, body: Option<string>)

  datatype Parsed = Parsed(title: string, metaDescription: string, h1Tags: seq<string>, wordCount: nat,
                           hasNoindex: bool, hasNofollow: bool, canonicalUrl: string, schemaTypes: seq<string>,
                           internalLinks: nat, externalLinks: nat, imagesCount: nat, imagesWithoutAlt: nat,
                           openGraph: map<string, string>, twitterCard: map<string, string>)

  function FirstOr(s: seq<string>, default: string): (r: string)
    ensures s != [] ==> r == s[0]
    ensures s == [] ==> r == default
  {
    if s == [] then default else s[0]
  }

  /** Lines 150-156: the `@type` of each JSON-LD block that has one. */
  function SchemaTypes(blocks: seq<string>, typeOf: string -> Option<string>): (r: seq<string>)
    ensures |r| <= |blocks|
    ensures forall k :: 0 <= k < |r| ==> exists b :: b in blocks && typeOf(b) == Some(r[k])
  {
    if |blocks| == 0 then []
    else
      var rest := SchemaTypes(blocks[1..], typeOf);
      assert forall k :: 0 <= k < |rest| ==> exists b :: b in blocks && typeOf(b) == Some(rest[k]);
      match typeOf(blocks[0])
      case Some(t) => [t] + rest
      case None => rest
  }

  /** Whether a JSON-LD block has an `@type`, and that type. */
  function Typed(typeOf: string -> Option<string>): string -> bool {
    b => typeOf(b).Some?
  }

  function TypeName(typeOf: string -> Option<string>): string -> string {
    b => if typeOf(b).Some? then typeOf(b).value else ""
  }

  /** The types are those of the typed blocks, one per block, in document
      order. */
  lemma {:induction false} SchemaTypesExactly(blocks: seq<string>, typeOf: string -> Option<string>)
    ensures SchemaTypes(blocks, typeOf) == Map(Filter(blocks, Typed(typeOf)), TypeName(typeOf))
    decreases |blocks|
  {
    if |blocks| > 0 {
      SchemaTypesExactly(blocks[1..], typeOf);
    }
  }

  /** Some tag carries the property `p`. */
  predicate Tagged(tags: seq<(string, string)>, p: string) {
    exists k :: 0 <= k < |tags| && tags[k].0 == p
  }

  /** Lines 180-191: properties into a map; a repeated property keeps its
      last value. */
  function Properties(tags: seq<(string, string)>): (m: map<string, string>)
    ensures forall p :: p in m <==> Tagged(tags, p)
    decreases |tags|
  {
    if |tags| == 0 then map[]
    else
      var last := tags[|tags| - 1];
      var earlier := Properties(tags[..|tags| - 1]);
      assert forall k :: 0 <= k < |tags| - 1 ==> tags[..|tags| - 1][k] == tags[k];
      earlier[last.0 := last.1]
  }

  lemma LastPropertyWins(tags: seq<(string, string)>, p: string, v: string)
    ensures Properties(tags + [(p, v)])[p] == v
  {
    assert (tags + [(p, v)])[..|tags|] == tags;
  }

  /** A property's value is the one of its last tag. */
  lemma {:induction false} PropertyIsLastValue(tags: seq<(string, string)>, k: int)
    requires 0 <= k < |tags|
    requires forall j :: k < j < |tags| ==> tags[j].0 != tags[k].0
    ensures tags[k].0 in Properties(tags) && Properties(tags)[tags[k].0] == tags[k].1
    decreases |tags|
  {
    var n := |tags|;
    if k < n - 1 {
      var front := tags[..n - 1];
      LaterKeysDiffer(tags, front, k);
      PropertyIsLastValue(front, k);
    }
  }

  lemma LaterKeysDiffer(tags: seq<(string, string)>, front: seq<(string, string)>, k: int)
    requires 0 <= k < |tags| - 1 && front == tags[..|tags| - 1]
    requires forall j :: k < j < |tags| ==> tags[j].0 != tags[k].0
    ensures front[k] == tags[k] && tags[|tags| - 1].0 != tags[k].0
    ensures forall j :: k < j < |front| ==> front[j].0 != front[k].0
  {
  }

  /** Every field of a parsed page as `parse_html` fills it from the DOM. */
  predicate ParsedFrom(r: Parsed, dom: Dom, siteUrl: string, typeOf: string -> Option<string>, wordCount: string -> nat) {
    r.title == FirstOr(dom.titles, "") && r.metaDescription == FirstOr(dom.descriptions, "") &&
    r.h1Tags == dom.h1s && r.wordCount == (if dom.body.Some? then wordCount(dom.body.value) else 0) &&
    (r.hasNoindex, r.hasNofollow) == RobotsFlags(dom.robots) && r.canonicalUrl == FirstOr(dom.canonicals, "") &&
    r.schemaTypes == SchemaTypes(dom.ldJson, typeOf) &&
    r.internalLinks == CountKind(dom.hrefs, siteUrl, Internal) && r.externalLinks == CountKind(dom.hrefs, siteUrl, External) &&
    r.imagesCount == |dom.alts| && r.imagesWithoutAlt == ImagesWithoutAlt(dom.alts) &&
    r.openGraph == Properties(dom.openGraph) && r.twitterCard == Properties(dom.twitter)
  }

  /** `parse_html`. */
  method ParseHtml(dom: Dom, siteUrl: string, typeOf: string -> Option<string>, wordCount: string -> nat) returns (r: Parsed)
    ensures r.title == FirstOr(dom.titles, "") && r.metaDescription == FirstOr(dom.descriptions, "")
    ensures r.h1Tags == dom.h1s && r.canonicalUrl == FirstOr(dom.canonicals, "")
    ensures (r.hasNoindex, r.hasNofollow) == RobotsFlags(dom.robots)
    ensures r.internalLinks + r.externalLinks <= |dom.hrefs|
    ensures r.internalLinks == CountKind(dom.hrefs, siteUrl, Internal) && r.externalLinks == CountKind(dom.hrefs, siteUrl, External)
    ensures r.imagesCount == |dom.alts| && r.imagesWithoutAlt <= r.imagesCount
    ensures r.imagesWithoutAlt == ImagesWithoutAlt(dom.alts)
    ensures dom.body.None? ==> r.wordCount == 0
    ensures dom.body.Some? ==> r.wordCount == wordCount(dom.body.value)
    ensures r.schemaTypes == SchemaTypes(dom.ldJson, typeOf)
    ensures r.openGraph == Properties(dom.openGraph) && r.twitterCard == Properties(dom.twitter)
    ensures ParsedFrom(r, dom, siteUrl, typeOf, wordCount)
  {
    var internal, external := CountLinks(dom.hrefs, siteUrl);
    var flags := RobotsFlags(dom.robots);
    r := Parsed(FirstOr(dom.titles, ""), FirstOr(dom.descriptions, ""), dom.h1s,
                if dom.body.Some? then wordCount(dom.body.value) else 0,
                flags.0, flags.1, FirstOr(dom.canonicals, ""), SchemaTypes(dom.ldJson, typeOf),
                internal, external, |dom.alts|, ImagesWithoutAlt(dom.alts),
                Properties(dom.openGraph), Properties(dom.twitter));
  }

  // ---------------------------------------------------------------- crawling

  /** A page as fetched: status, body and the seconds it took. */
  datatype Response = Response(status: int, html: string, loadTime: real)

  datatype CrawlData = CrawlData(url: string, statusCode: int, loadTime: real, pageSize: nat, page: Parsed)

  /** What the page-specific parameters supply. */
  datatype Reader = Reader(dom: string -> Dom, typeOf: string -> Option<string>, wordCount: string -> nat)

  /** `crawl_url($url)`: a failed request is the error; any status is read. */
  method CrawlUrl(url: string, siteUrl: string, fetch: Result<Response>, rd: Reader) returns (r: Result<CrawlData>)
    ensures fetch.Err? ==> r == Err(fetch.error)
    ensures fetch.Ok? ==>
      r.Ok? && r.value.url == url && r.value.statusCode == fetch.value.status && r.value.pageSize == |fetch.value.html|
    ensures fetch.Ok? ==>
      r.value.loadTime == fetch.value.loadTime &&
      ParsedFrom(r.value.page, rd.dom(fetch.value.html), siteUrl, rd.typeOf, rd.wordCount)
  {
    if fetch.Err? {
      return Err(fetch.error);
    }
    var page := ParseHtml(rd.dom(fetch.value.html), siteUrl, rd.typeOf, rd.wordCount);
    r := Ok(CrawlData(url, fetch.value.status, fetch.value.loadTime, |fetch.value.html|, page));
  }

  /** The stored row the technical analyzer later reads. */
  function SavedRow(d: CrawlData): (row: TechnicalAnalyzer.CrawlRow)
    ensures row.url == d.url && row.title == d.page.title && row.h1Tags == d.page.h1Tags
    ensures row.imagesWithoutAlt == d.page.imagesWithoutAlt && row.wordCount == d.page.wordCount
    ensures row.metaDescription == d.page.metaDescription && row.loadTime == d.loadTime
  {
    TechnicalAnalyzer.CrawlRow(d.url, d.page.title, d.page.metaDescription, d.page.wordCount,
                               d.page.imagesWithoutAlt, d.page.h1Tags, d.loadTime)
  }

  /** The URLs a crawl visits: the first `maxPages` (PHP `array_slice`). */
  function Visited(urls: seq<string>, maxPages: int): (r: seq<string>)
    ensures maxPages >= 0 ==> |r| <= maxPages
    ensures |r| <= |urls| && r == urls[..|r|]
  {
    SliceHead(urls, maxPages)
  }

  /** Which visited URLs succeed: those whose fetch is not an error. */
  function Succeeded(urls: seq<string>, fetch: string -> Result<Response>): (r: seq<string>)
    ensures |r| <= |urls|
    ensures forall k :: 0 <= k < |r| ==> r[k] in urls && fetch(r[k]).Ok?
  {
    if |urls| == 0 then []
    else (if fetch(urls[0]).Ok? then [urls[0]] else []) + Succeeded(urls[1..], fetch)
  }

  lemma {:induction false} SucceededAppend(urls: seq<string>, u: string, fetch: string -> Result<Response>)
    ensures Succeeded(urls + [u], fetch) == Succeeded(urls, fetch) + (if fetch(u).Ok? then [u] else [])
  {
    if |urls| == 0 {
      assert urls + [u] == [u];
    } else {
      assert (urls + [u])[1..] == urls[1..] + [u];
      SucceededAppend(urls[1..], u, fetch);
    }
  }

  /** `crawl_site($audit_id)`: at most `maxPages` URLs are visited; the
      successful crawls are returned and saved, in visiting order, and
      failures are skipped. */
  method CrawlSite(urls: seq<string>, maxPages: int, siteUrl: string, fetch: string -> Result<Response>, rd: Reader)
    returns (results: seq<CrawlData>, saved: seq<TechnicalAnalyzer.CrawlRow>)
    ensures |results| == |Succeeded(Visited(urls, maxPages), fetch)|
    ensures forall k :: 0 <= k < |results| ==> results[k].url == Succeeded(Visited(urls, maxPages), fetch)[k]
    ensures maxPages >= 0 ==> |results| <= maxPages
    ensures |saved| == |results| && forall k :: 0 <= k < |results| ==> saved[k] == SavedRow(results[k])
  {
    var visit := Visited(urls, maxPages);
    results, saved := [], [];
    for i := 0 to |visit|
      invariant |results| == |Succeeded(visit[..i], fetch)|
      invariant forall k :: 0 <= k < |results| ==> results[k].url == Succeeded(visit[..i], fetch)[k]
      invariant |saved| == |results| && forall k :: 0 <= k < |results| ==> saved[k] == SavedRow(results[k])
    {
      assert visit[..i + 1] == visit[..i] + [visit[i]];
      SucceededAppend(visit[..i], visit[i], fetch);
      var data := CrawlUrl(visit[i], siteUrl, fetch(visit[i]), rd);
      if data.Ok? {
        results := results + [data.value];
        saved := saved + [SavedRow(data.value)];
      }
    }
    assert visit[..|visit|] == visit;
  }
}
