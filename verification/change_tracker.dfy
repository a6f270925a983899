/** The change tracker: detectors that compare what the site serves now with
    what they remembered last time (robots.txt, sitemap, noindex flags,
    schema markup, the homepage), the broken-link sweep, and the per-post
    change log. HTTP responses, hashes and word counts are inputs; the
    tracker's option and meta writes are taken to succeed. */
module ChangeTracker {
  import opened Common
  import opened Text
  import opened WordPress
  import Settings

  // ---------------------------------------------------------------- changes

  datatype ChangeKind = RobotsTxtBlocking | SitemapMissing | NoindexAdded | BrokenLink | SchemaRemoved | HomepageChange

  datatype Change = Change(kind: ChangeKind, message: string, postId: Option<int>, url: Option<string>, severity: string)

  predicate IsCritical(c: Change) {
    c.kind in {RobotsTxtBlocking, SitemapMissing, NoindexAdded} && c.severity == "critical"
  }

  predicate IsWarning(c: Change) {
    c.kind in {BrokenLink, SchemaRemoved, HomepageChange} && c.severity == "warning"
  }

  function OptionSeq<T>(o: Option<T>): (r: seq<T>)
    ensures o.Some? ==> r == [o.value]
    ensures o.None? ==> r == []
  {
    if o.Some? then [o.value] else []
  }

  /** What the detectors remember between runs, as WordPress options: "" is
      an option never set, and the sitemap status defaults to available. */
  datatype Memory = Memory(robotsHash: string, sitemapStatus: Option<bool>, homepageHash: string)

  // ---------------------------------------------------------------- robots.txt

  const RobotsBlocking := Change(RobotsTxtBlocking, "robots.txt is now blocking site content", None, None, "critical")

  /** The alert condition: a remembered hash, a different one now, and a
      body that disallows something. */
  predicate RobotsAlert(stored: string, current: string, body: string) {
    !PhpEmpty(stored) && stored != current && ContainsNoCase(body, "Disallow: /")
  }

  /** `check_robots_txt()`: `fetch` is the body of the site's robots.txt or
      the request's error; `md5` the hash. The first body seen is remembered
      without an alert; afterwards a different body alerts only when it
      disallows something, and only then is the new hash remembered. */
  function CheckRobotsTxt(mem: Memory, fetch: Result<string>, md5: string -> string): (r: (Option<Change>, Memory))
    ensures fetch.Err? ==> r == (None, mem)
    ensures r.0.Some? <==> fetch.Ok? && RobotsAlert(mem.robotsHash, md5(fetch.value), fetch.value)
    ensures r.0.Some? ==> r.0.value == RobotsBlocking
    ensures fetch.Ok? && PhpEmpty(mem.robotsHash) ==> r == (None, mem.(robotsHash := md5(fetch.value)))
    ensures r.1 != mem ==>
      fetch.Ok? && r.1 == mem.(robotsHash := md5(fetch.value)) && (PhpEmpty(mem.robotsHash) || r.0.Some?)
  {
    match fetch
    case Err(_) => (None, mem)
    case Ok(body) =>
      var current := md5(body);
      if RobotsAlert(mem.robotsHash, current, body) then (Some(RobotsBlocking), mem.(robotsHash := current))
      else if PhpEmpty(mem.robotsHash) then (None, mem.(robotsHash := current))
      else (None, mem)
  }

  /** After an alert the same body is quiet. */
  lemma RobotsAlertsOnce(mem: Memory, body: string, md5: string -> string)
    requires CheckRobotsTxt(mem, Ok(body), md5).0.Some?
    ensures CheckRobotsTxt(CheckRobotsTxt(mem, Ok(body), md5).1, Ok(body), md5).0 == None
  {
  }

  /** A change that blocks nothing is not remembered, so the original body
      later is quiet and a blocking body later still alerts against the
      original hash. */
  lemma RobotsQuietChangeForgotten(mem: Memory, quiet: string, blocking: string, md5: string -> string)
    requires !PhpEmpty(mem.robotsHash) && !ContainsNoCase(quiet, "Disallow: /")
    requires ContainsNoCase(blocking, "Disallow: /") && md5(blocking) != mem.robotsHash
    ensures var m1 := CheckRobotsTxt(mem, Ok(quiet), md5).1;
      m1 == mem && CheckRobotsTxt(m1, Ok(blocking), md5).0 == Some(RobotsBlocking)
  {
  }

  // ---------------------------------------------------------------- sitemap

  const SitemapPaths := ["/sitemap.xml", "/sitemap_index.xml", "/wp-sitemap.xml"]

  const SitemapGone := Change(SitemapMissing, "Sitemap is no longer accessible", None, None, "critical")

  /** Whether one of the three sitemap URLs answers 200; `get` gives each
      URL's status code or the request's error. */
  predicate SitemapFound(siteUrl: string, get: string -> Result<int>) {
    exists i :: 0 <= i < |SitemapPaths| && get(siteUrl + SitemapPaths[i]) == Ok(200)
  }

  /** Lines 102-111: the three URLs in order, stopping at the first 200. */
  function ProbeSitemaps(siteUrl: string, get: string -> Result<int>, k: nat): (found: bool)
    requires k <= |SitemapPaths|
    ensures found <==> exists i :: k <= i < |SitemapPaths| && get(siteUrl + SitemapPaths[i]) == Ok(200)
    decreases |SitemapPaths| - k
  {
    if k == |SitemapPaths| then false
    else if get(siteUrl + SitemapPaths[k]) == Ok(200) then true
    else ProbeSitemaps(siteUrl, get, k + 1)
  }

  /** `update_option('sap_sitemap_status', value)`. WordPress skips an
      update whose value is identical to what `get_option` returns, and for
      an option never stored that is `false`; so storing `false` over nothing
      stores nothing. */
  function StoreSitemapStatus(mem: Memory, value: bool): (r: Memory)
    ensures r == mem.(sitemapStatus := r.sitemapStatus)
    ensures mem.sitemapStatus.Some? || value ==> r.sitemapStatus == Some(value)
    ensures mem.sitemapStatus.None? && !value ==> r == mem
  {
    if mem.sitemapStatus.None? && !value then mem else mem.(sitemapStatus := Some(value))
  }

  /** `check_sitemap()`: an alert only when the sitemap was available (a
      status never stored counts as available) and is gone. A stored status
      follows the sitemap; a status never stored stays unstored, because
      the `false` written on an absence is the option's default. */
  function CheckSitemap(mem: Memory, siteUrl: string, get: string -> Result<int>): (r: (Option<Change>, Memory))
    ensures var found := SitemapFound(siteUrl, get);
      (r.0.Some? <==> !found && mem.sitemapStatus.GetOr(true)) &&
      (r.0.Some? ==> r.0.value == SitemapGone) &&
      (mem.sitemapStatus.Some? ==> r.1 == mem.(sitemapStatus := Some(found))) &&
      (mem.sitemapStatus.None? ==> r.1 == mem)
  {
    var found := ProbeSitemaps(siteUrl, get, 0);
    var previous := mem.sitemapStatus.GetOr(true);
    if !found && previous then (Some(SitemapGone), StoreSitemapStatus(mem, false))
    else if found && !previous then (None, StoreSitemapStatus(mem, true))
    else (None, mem)
  }

  /** Once a status is stored, a sitemap missing twice alerts once, and
      after it comes back a new absence alerts again. */
  lemma SitemapEpisodes(mem: Memory, siteUrl: string, gone: string -> Result<int>, back: string -> Result<int>)
    requires mem.sitemapStatus.Some?
    requires !SitemapFound(siteUrl, gone) && SitemapFound(siteUrl, back)
    ensures var m1 := CheckSitemap(mem, siteUrl, gone).1;
      CheckSitemap(m1, siteUrl, gone).0 == None &&
      CheckSitemap(m1, siteUrl, back).0 == None &&
      CheckSitemap(CheckSitemap(m1, siteUrl, back).1, siteUrl, gone).0 == Some(SitemapGone)
  {
  }

  /** On a site where the status was never stored, a missing sitemap alerts
      on every run: the alert leaves nothing behind to remember it by. */
  lemma {:induction false} UnstoredSitemapAlertsEveryRun(mem: Memory, siteUrl: string, gone: string -> Result<int>, n: nat)
    requires mem.sitemapStatus.None? && !SitemapFound(siteUrl, gone)
    ensures RepeatSitemap(mem, siteUrl, gone, n) == mem
    ensures CheckSitemap(RepeatSitemap(mem, siteUrl, gone, n), siteUrl, gone).0 == Some(SitemapGone)
    decreases n
  {
    if n > 0 {
      UnstoredSitemapAlertsEveryRun(mem, siteUrl, gone, n - 1);
    }
  }

  /** The memory after `n` runs of `check_sitemap()` that all see `get`. */
  function RepeatSitemap(mem: Memory, siteUrl: string, get: string -> Result<int>, n: nat): Memory
    decreases n
  {
    if n == 0 then mem else CheckSitemap(RepeatSitemap(mem, siteUrl, get, n - 1), siteUrl, get).1
  }

  /** `check_sitemap()` as evidently intended: an absence is remembered
      whether or not a status was stored before, so it alerts once. */
  function CheckSitemapIntended(mem: Memory, siteUrl: string, get: string -> Result<int>): (r: (Option<Change>, Memory))
    ensures var found := SitemapFound(siteUrl, get);
      (r.0.Some? <==> !found && mem.sitemapStatus.GetOr(true)) &&
      (r.0.Some? ==> r.0.value == SitemapGone) &&
      (!found ==> r.1 == mem.(sitemapStatus := Some(false))) &&
      (found ==> r.1 == mem || r.1 == mem.(sitemapStatus := Some(true)))
  {
    var found := ProbeSitemaps(siteUrl, get, 0);
    var previous := mem.sitemapStatus.GetOr(true);
    if !found && previous then (Some(SitemapGone), mem.(sitemapStatus := Some(false)))
    else if found && !previous then (None, mem.(sitemapStatus := Some(true)))
    else (None, mem)
  }

  /** Under the intended behaviour a sitemap missing on consecutive runs
      alerts on the first only, from any memory, a fresh install included;
      after it comes back a new absence alerts again. */
  lemma IntendedSitemapEpisodes(mem: Memory, siteUrl: string, gone: string -> Result<int>, back: string -> Result<int>)
    requires !SitemapFound(siteUrl, gone) && SitemapFound(siteUrl, back)
    ensures var m1 := CheckSitemapIntended(mem, siteUrl, gone).1;
      CheckSitemapIntended(m1, siteUrl, gone).0 == None &&
      CheckSitemapIntended(m1, siteUrl, back).0 == None &&
      CheckSitemapIntended(CheckSitemapIntended(m1, siteUrl, back).1, siteUrl, gone).0 == Some(SitemapGone)
  {
  }

  /** The memory after `n` runs of the intended check that all see `get`. */
  function RepeatSitemapIntended(mem: Memory, siteUrl: string, get: string -> Result<int>, n: nat): Memory
    decreases n
  {
    if n == 0 then mem else CheckSitemapIntended(RepeatSitemapIntended(mem, siteUrl, get, n - 1), siteUrl, get).1
  }

  /** Under the intended behaviour, once a missing sitemap has been seen,
      later runs that still miss it stay silent, a fresh install included. */
  lemma {:induction false} IntendedSitemapAlertsOnce(mem: Memory, siteUrl: string, gone: string -> Result<int>, n: nat)
    requires !SitemapFound(siteUrl, gone) && n >= 1
    ensures RepeatSitemapIntended(mem, siteUrl, gone, n).sitemapStatus == Some(false)
    ensures CheckSitemapIntended(RepeatSitemapIntended(mem, siteUrl, gone, n), siteUrl, gone).0 == None
    decreases n
  {
    if n > 1 {
      IntendedSitemapAlertsOnce(mem, siteUrl, gone, n - 1);
    }
  }

  // ---------------------------------------------------------------- noindex

  const NoindexKey := "_yoast_wpseo_meta-robots-noindex"
  const TrackedKey := "sap_tracked_noindex"

  predicate Noindex(site: Site, id: int) {
    GetMeta(site, id, NoindexKey) == "1"
  }

  predicate Tracked(site: Site, id: int) {
    !PhpEmpty(GetMeta(site, id, TrackedKey))
  }

  function Title(site: Site, id: int): string {
    if id in site.posts then site.posts[id].title else ""
  }

  function NoindexChange(site: Site, id: int): Change {
    Change(NoindexAdded, "Post '" + Title(site, id) + "' now has noindex meta tag", Some(id), None, "critical")
  }

  /** `check_meta_robots()` over the recently modified posts: a noindexed
      post not yet tracked is reported and tracked; a post without noindex
      loses its tracking. Only the tracking key changes. */
  /** One post of the noindex sweep: tracking follows the noindex flag. */
  function NoindexStep(site: Site, id: int): (r: Site)
    ensures forall x :: Noindex(r, x) == Noindex(site, x) && Title(r, x) == Title(site, x)
    ensures Tracked(r, id) == Noindex(site, id)
    ensures forall x :: x != id ==> Tracked(r, x) == Tracked(site, x)
    ensures r.posts == site.posts
  {
    if Noindex(site, id) then (if Tracked(site, id) then site else UpdateMeta(site, id, TrackedKey, "1", Stored))
    else DeleteMeta(site, id, TrackedKey)
  }

  function CheckMetaRobots(site: Site, posts: seq<int>): (r: (seq<Change>, Site))
    ensures forall id :: Noindex(r.1, id) == Noindex(site, id) && Title(r.1, id) == Title(site, id)
    ensures forall id :: id !in posts ==> Tracked(r.1, id) == Tracked(site, id)
    ensures forall id :: id in posts ==> Tracked(r.1, id) == Noindex(site, id)
    ensures forall k :: 0 <= k < |r.0| ==>
      r.0[k].kind == NoindexAdded && r.0[k].severity == "critical" && r.0[k].postId.Some? && r.0[k].postId.value in posts && Noindex(site, r.0[k].postId.value)
    ensures |r.0| <= |posts|
    ensures r.1.posts == site.posts
    decreases |posts|
  {
    if |posts| == 0 then ([], site)
    else
      var id := posts[0];
      var now := if Noindex(site, id) && !Tracked(site, id) then [NoindexChange(site, id)] else [];
      var (rest, s2) := CheckMetaRobots(NoindexStep(site, id), posts[1..]);
      assert forall x :: x in posts <==> x == id || x in posts[1..];
      (now + rest, s2)
  }

  /** Tracking agrees with noindex for every listed post. */
  predicate InStep(site: Site, posts: seq<int>) {
    forall id :: id in posts ==> Tracked(site, id) == Noindex(site, id)
  }

  /** A second run over the same posts reports nothing: each noindex is
      reported once per episode. */
  lemma {:induction false} QuietWhenInStep(site: Site, posts: seq<int>)
    requires InStep(site, posts)
    ensures CheckMetaRobots(site, posts).0 == []
    decreases |posts|
  {
    if |posts| > 0 {
      var s1 := NoindexStep(site, posts[0]);
      assert InStep(s1, posts[1..]);
      QuietWhenInStep(s1, posts[1..]);
    }
  }

  lemma NoindexReportedOnce(site: Site, posts: seq<int>)
    ensures CheckMetaRobots(CheckMetaRobots(site, posts).1, posts).0 == []
  {
    QuietWhenInStep(CheckMetaRobots(site, posts).1, posts);
  }

  /** A listed post whose noindex flag is new is reported. */
  lemma NewNoindexReported(site: Site, id: int, rest: seq<int>)
    requires Noindex(site, id) && !Tracked(site, id)
    ensures CheckMetaRobots(site, [id] + rest).0[0] == NoindexChange(site, id)
  {
    assert ([id] + rest)[1..] == rest;
  }

  // ---------------------------------------------------------------- schema

  const SchemaKey := "sap_schema_markup"
  const HadSchemaKey := "sap_had_schema"

  predicate HasSchema(site: Site, id: int) {
    !PhpEmpty(GetMeta(site, id, SchemaKey))
  }

  /** Schema absent now but seen before. */
  predicate SchemaGone(site: Site, id: int) {
    !HasSchema(site, id) && !PhpEmpty(GetMeta(site, id, HadSchemaKey))
  }

  function SchemaChange(site: Site, id: int): Change {
    Change(SchemaRemoved, "Schema markup removed from '" + Title(site, id) + "'", Some(id), None, "warning")
  }

  /** One post of the schema sweep: present schema is remembered. */
  function SchemaStep(site: Site, id: int): (r: Site)
    ensures forall x :: SchemaGone(r, x) == SchemaGone(site, x) && Title(r, x) == Title(site, x)
    ensures HasSchema(site, id) ==> !PhpEmpty(GetMeta(r, id, HadSchemaKey))
    ensures r.posts == site.posts
  {
    if HasSchema(site, id) then UpdateMeta(site, id, HadSchemaKey, "1", Stored) else site
  }

  /** `check_schema_changes()` over the recently modified posts: a post
      without schema that had it is reported; a post with schema is
      remembered as having had it. The flag is never cleared. */
  function CheckSchemaChanges(site: Site, posts: seq<int>): (r: (seq<Change>, Site))
    ensures forall id :: SchemaGone(r.1, id) == SchemaGone(site, id) && Title(r.1, id) == Title(site, id)
    ensures r.1.posts == site.posts
    decreases |posts|
  {
    if |posts| == 0 then ([], site)
    else
      var id := posts[0];
      var now := if SchemaGone(site, id) then [SchemaChange(site, id)] else [];
      var (rest, s2) := CheckSchemaChanges(SchemaStep(site, id), posts[1..]);
      (now + rest, s2)
  }

  /** The reports, read from the site as it was before the run. */
  function SchemaReports(site: Site, posts: seq<int>): (r: seq<Change>)
    ensures forall k :: 0 <= k < |r| ==>
      IsWarning(r[k]) && r[k].postId.Some? && r[k].postId.value in posts && SchemaGone(site, r[k].postId.value)
  {
    if |posts| == 0 then []
    else (if SchemaGone(site, posts[0]) then [SchemaChange(site, posts[0])] else []) + SchemaReports(site, posts[1..])
  }

  lemma {:induction false} SchemaReportsAgree(a: Site, b: Site, posts: seq<int>)
    requires forall id :: SchemaGone(a, id) == SchemaGone(b, id) && Title(a, id) == Title(b, id)
    ensures SchemaReports(a, posts) == SchemaReports(b, posts)
    decreases |posts|
  {
    if |posts| > 0 {
      SchemaReportsAgree(a, b, posts[1..]);
    }
  }

  /** A run reports exactly the listed posts whose schema is gone. */
  lemma {:induction false} SchemaRunReports(site: Site, posts: seq<int>)
    ensures CheckSchemaChanges(site, posts).0 == SchemaReports(site, posts)
    decreases |posts|
  {
    if |posts| > 0 {
      var s1 := SchemaStep(site, posts[0]);
      SchemaRunReports(s1, posts[1..]);
      SchemaReportsAgree(s1, site, posts[1..]);
    }
  }

  /** While the schema stays away the removal is reported on every run. */
  lemma SchemaReportedEveryRun(site: Site, posts: seq<int>)
    ensures CheckSchemaChanges(CheckSchemaChanges(site, posts).1, posts).0 == CheckSchemaChanges(site, posts).0
  {
    var s1 := CheckSchemaChanges(site, posts).1;
    SchemaRunReports(site, posts);
    SchemaRunReports(s1, posts);
    SchemaReportsAgree(s1, site, posts);
  }

  // ---------------------------------------------------------------- broken links

  const MaxBrokenLinks := 10

  /** A HEAD request that failed or answered 404. */
  predicate Broken(reply: Result<int>) {
    reply.Err? || reply.value == 404
  }

  function BrokenChange(postId: int, url: string): Change {
    Change(BrokenLink, "Broken link found: " + url, Some(postId), Some(url), "warning")
  }

  /** Every broken internal link of the sampled posts, in order; `links`
      pairs each post with the internal URLs its anchors point at. */
  function AllBroken(links: seq<(int, seq<string>)>, head: string -> Result<int>): (r: seq<Change>)
    ensures forall k :: 0 <= k < |r| ==> IsWarning(r[k]) && r[k].kind == BrokenLink && r[k].url.Some? && Broken(head(r[k].url.value))
  {
    if |links| == 0 then []
    else
      var (id, urls) := links[0];
      PostBroken(id, urls, head) + AllBroken(links[1..], head)
  }

  function PostBroken(id: int, urls: seq<string>, head: string -> Result<int>): (r: seq<Change>)
    ensures forall k :: 0 <= k < |r| ==> IsWarning(r[k]) && r[k].kind == BrokenLink && r[k].url.Some? && Broken(head(r[k].url.value))
    ensures forall u :: u in urls && Broken(head(u)) ==> BrokenChange(id, u) in r
  {
    if |urls| == 0 then []
    else (if Broken(head(urls[0])) then [BrokenChange(id, urls[0])] else []) + PostBroken(id, urls[1..], head)
  }

  /** `check_broken_links()`: the first ten broken links. */
  function CheckBrokenLinks(links: seq<(int, seq<string>)>, head: string -> Result<int>): (r: seq<Change>)
    ensures |r| <= MaxBrokenLinks && |r| <= |AllBroken(links, head)|
    ensures r == AllBroken(links, head)[..|r|]
    ensures |r| < MaxBrokenLinks ==> r == AllBroken(links, head)
  {
    SliceHead(AllBroken(links, head), MaxBrokenLinks)
  }

  // ---------------------------------------------------------------- all checks

  datatype ChangeReport = ChangeReport(critical: seq<Change>, warnings: seq<Change>, info: seq<Change>)

  datatype Observations = Observations(
    robots: Result<string>, md5: string -> string, siteUrl: string, get: string -> Result<int>,
    modified: seq<int>, links: seq<(int, seq<string>)>, head: string -> Result<int>, modifiedPosts: seq<int>)

  lemma AllSatisfy(a: seq<Change>, b: seq<Change>, p: Change -> bool)
    requires forall k :: 0 <= k < |a| ==> p(a[k])
    requires forall k :: 0 <= k < |b| ==> p(b[k])
    ensures forall k :: 0 <= k < |a + b| ==> p((a + b)[k])
  {
  }

  /** The robots.txt alert, the sitemap alert and the noindex alerts are all
      critical. */
  lemma CriticalParts(robots: Option<Change>, sitemap: Option<Change>, noindex: seq<Change>)
    requires robots.Some? ==> robots.value == RobotsBlocking
    requires sitemap.Some? ==> sitemap.value == SitemapGone
    requires forall k :: 0 <= k < |noindex| ==> noindex[k].kind == NoindexAdded && noindex[k].severity == "critical"
    ensures forall k :: 0 <= k < |OptionSeq(robots) + OptionSeq(sitemap) + noindex| ==>
      IsCritical((OptionSeq(robots) + OptionSeq(sitemap) + noindex)[k])
  {
    var alerts := OptionSeq(robots) + OptionSeq(sitemap);
    assert forall k :: 0 <= k < |alerts| ==> IsCritical(alerts[k]);
    AllSatisfy(alerts, noindex, IsCritical);
  }

  /** The three critical detectors, in the order they run. */
  method CriticalChecks(mem: Memory, site: Site, o: Observations) returns (critical: seq<Change>, mem2: Memory, site2: Site)
    ensures forall k :: 0 <= k < |critical| ==> IsCritical(critical[k])
    ensures |critical| <= 2 + |o.modified|
    ensures site2.posts == site.posts
    ensures var robots := CheckRobotsTxt(mem, o.robots, o.md5);
      var sitemap := CheckSitemap(robots.1, o.siteUrl, o.get);
      critical == OptionSeq(robots.0) + OptionSeq(sitemap.0) + CheckMetaRobots(site, o.modified).0 &&
      mem2 == sitemap.1 && site2 == CheckMetaRobots(site, o.modified).1
  {
    var robots := CheckRobotsTxt(mem, o.robots, o.md5);
    var sitemap := CheckSitemap(robots.1, o.siteUrl, o.get);
    var noindex := CheckMetaRobots(site, o.modified);
    mem2, site2 := sitemap.1, noindex.1;
    CriticalParts(robots.0, sitemap.0, noindex.0);
    critical := OptionSeq(robots.0) + OptionSeq(sitemap.0) + noindex.0;
  }

  /** The two warning detectors. */
  method WarningChecks(site: Site, o: Observations) returns (warnings: seq<Change>, site2: Site)
    ensures forall k :: 0 <= k < |warnings| ==> IsWarning(warnings[k])
    ensures site2.posts == site.posts
    ensures warnings == CheckBrokenLinks(o.links, o.head) + CheckSchemaChanges(site, o.modifiedPosts).0
    ensures site2 == CheckSchemaChanges(site, o.modifiedPosts).1
  {
    var broken := CheckBrokenLinks(o.links, o.head);
    var schema := CheckSchemaChanges(site, o.modifiedPosts).0;
    site2 := CheckSchemaChanges(site, o.modifiedPosts).1;
    SchemaRunReports(site, o.modifiedPosts);
    AllSatisfy(broken, schema, IsWarning);
    warnings := broken + schema;
  }

  /** `check_for_changes()`: robots.txt, sitemap and noindex findings are
      critical; broken links (at most ten) and schema removals are warnings;
      nothing is ever informational. `modified` are the 50 latest modified
      posts and pages, `modifiedPosts` the 20 latest modified posts. */
  method CheckForChanges(mem: Memory, site: Site, o: Observations) returns (report: ChangeReport, mem2: Memory, site2: Site)
    ensures forall k :: 0 <= k < |report.critical| ==> IsCritical(report.critical[k])
    ensures forall k :: 0 <= k < |report.warnings| ==> IsWarning(report.warnings[k])
    ensures report.info == []
    ensures |report.critical| <= 2 + |o.modified|
    ensures site2.posts == site.posts
    ensures var robots := CheckRobotsTxt(mem, o.robots, o.md5);
      var sitemap := CheckSitemap(robots.1, o.siteUrl, o.get);
      var noindex := CheckMetaRobots(site, o.modified);
      report.critical == OptionSeq(robots.0) + OptionSeq(sitemap.0) + noindex.0 &&
      report.warnings == CheckBrokenLinks(o.links, o.head) + CheckSchemaChanges(noindex.1, o.modifiedPosts).0 &&
      mem2 == sitemap.1
  {
    var critical, site1;
    critical, mem2, site1 := CriticalChecks(mem, site, o);
    var warnings;
    warnings, site2 := WarningChecks(site1, o);
    report := ChangeReport(critical, warnings, []);
  }

  // ---------------------------------------------------------------- homepage

  const HomepageChanged := Change(HomepageChange, "Homepage content has been modified", None, None, "warning")

  /** `check_homepage_changes()`: `frontPage` is the `page_on_front` option.
      Without one nothing happens; the first hash is remembered silently; a
      different hash later warns and is remembered. */
  function CheckHomepageChanges(mem: Memory, site: Site, frontPage: string, md5: string -> string): (r: (Option<Change>, Memory))
    ensures PhpEmpty(frontPage) ==> r == (None, mem)
    ensures var id := Settings.StringToInt(frontPage);
      var current := md5(if id in site.posts then site.posts[id].content + site.posts[id].title else "");
      !PhpEmpty(frontPage) ==>
        (r.0.Some? <==> !PhpEmpty(mem.homepageHash) && mem.homepageHash != current) &&
        (r.1 == if PhpEmpty(mem.homepageHash) || mem.homepageHash != current then mem.(homepageHash := current) else mem)
    ensures r.0.Some? ==> r.0.value == HomepageChanged
  {
    if PhpEmpty(frontPage) then (None, mem)
    else
      var id := Settings.StringToInt(frontPage);
      var current := md5(if id in site.posts then site.posts[id].content + site.posts[id].title else "");
      if !PhpEmpty(mem.homepageHash) && mem.homepageHash != current then (Some(HomepageChanged), mem.(homepageHash := current))
      else if PhpEmpty(mem.homepageHash) then (None, mem.(homepageHash := current))
      else (None, mem)
  }

  /** An edit warns once: the next check of the same homepage is quiet. */
  lemma HomepageWarnsOnce(mem: Memory, site: Site, frontPage: string, md5: string -> string)
    ensures var m1 := CheckHomepageChanges(mem, site, frontPage, md5).1;
      CheckHomepageChanges(m1, site, frontPage, md5).0 == None
  {
  }

  // ---------------------------------------------------------------- post updates

  /** The fields of a post revision the tracker compares. */
  datatype Revision = Revision(title: string, slug: string, content: string)

  datatype PostChange =
    | TitleChange(before: string, after: string)
    | SlugChange(before: string, after: string)
    | ContentChange(wordCountChange: nat)

  datatype LogRecord = LogRecord(timestamp: string, changes: seq<PostChange>)

  const MaxChangeLog := 10

  function Abs(x: int): nat {
    if x < 0 then -x else x
  }

  /** The place of a change kind in the log record: title, slug, content. */
  function KindRank(c: PostChange): nat {
    match c
    case TitleChange(_, _) => 0
    case SlugChange(_, _) => 1
    case ContentChange(_) => 2
  }

  /** Lines 252-282: a new title, a new slug, and a word count that moved by
      more than 100, each at most once and in that order. */
  function DetectChanges(before: Revision, after: Revision, wordCount: string -> nat): (r: seq<PostChange>)
    ensures TitleChange(before.title, after.title) in r <==> before.title != after.title
    ensures SlugChange(before.slug, after.slug) in r <==> before.slug != after.slug
    ensures (exists k :: 0 <= k < |r| && r[k].ContentChange?) <==>
      Abs(wordCount(after.content) - wordCount(before.content)) > 100
    ensures forall k :: 0 <= k < |r| ==>
      match r[k]
      case TitleChange(b, a) => b == before.title && a == after.title
      case SlugChange(b, a) => b == before.slug && a == after.slug
      case ContentChange(d) => d == Abs(wordCount(after.content) - wordCount(before.content))
    ensures forall i, j :: 0 <= i < j < |r| ==> KindRank(r[i]) < KindRank(r[j])
    ensures |r| <= 3
  {
    var delta := Abs(wordCount(after.content) - wordCount(before.content));
    var r := (if before.title != after.title then [TitleChange(before.title, after.title)] else []) +
      (if before.slug != after.slug then [SlugChange(before.slug, after.slug)] else []) +
      (if delta > 100 then [ContentChange(delta)] else []);
    assert delta > 100 ==> r[|r| - 1].ContentChange?;
    r
  }

  /** `track_post_update`: a record of the changes, if any, joins the
      post's log, which keeps its last ten records. */
  function TrackPostUpdate(log: seq<LogRecord>, before: Revision, after: Revision, wordCount: string -> nat, now: string): (r: seq<LogRecord>)
    ensures DetectChanges(before, after, wordCount) == [] ==> r == log
    ensures DetectChanges(before, after, wordCount) != [] ==>
      |r| == (if |log| < MaxChangeLog then |log| + 1 else MaxChangeLog) &&
      r[|r| - 1] == LogRecord(now, DetectChanges(before, after, wordCount)) &&
      r[..|r| - 1] == log[|log| + 1 - |r|..]
  {
    var changes := DetectChanges(before, after, wordCount);
    if changes == [] then log
    else
      var all := log + [LogRecord(now, changes)];
      var r := KeepLast(all, MaxChangeLog);
      assert r == all[|all| - |r|..];
      assert r[..|r| - 1] == all[|all| - |r|..|all| - 1];
      r
  }

  /** Saving a post unchanged leaves its log alone. */
  lemma UnchangedPostNotLogged(log: seq<LogRecord>, rev: Revision, wordCount: string -> nat, now: string)
    ensures TrackPostUpdate(log, rev, rev, wordCount, now) == log
  {
    assert DetectChanges(rev, rev, wordCount) == [];
  }
}
