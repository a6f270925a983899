/** Rule-based detection of technical issues in crawled pages
    (`modules/analysis/class-technical-analyzer.php`). Seven rules run on
    every page, in a fixed order. */
module TechnicalAnalyzer {
  import opened Common
  import opened Database

  /** A stored crawl row: the fields the rules read. `h1Tags` is the decoded
      list the crawler stored. */
  datatype CrawlRow = CrawlRow(
    url: string,
    title: string,
    metaDescription: string,
    wordCount: int,
    imagesWithoutAlt: int,
    h1Tags: seq<string>,
    loadTime: real)

  /** A detected issue, before it is stored. */
  datatype Finding = Finding(
    kind: IssueKind,
    severity: Severity,
    url: string,
    postId: int,
    fixAvailable: bool,
    autoFixable: bool,
    priority: int)

  /** The five kinds the analyzer marks as fixable (and auto-fixable). */
  predicate FixableKind(k: IssueKind) {
    k in {MissingMetaDescription, MissingTitle, ThinContent, MissingAltText, MissingH1}
  }

  function RuleSeverity(k: IssueKind): Severity {
    if k == MissingTitle then Critical else if k == MultipleH1 then Info else Warning
  }

  /** The priority score each rule stores (the analyzer does not use the
      priority scorer). */
  function RulePriority(k: IssueKind): int {
    match k
    case MissingMetaDescription => 70
    case MissingTitle => 95
    case ThinContent => 60
    case MissingAltText => 50
    case MissingH1 => 65
    case MultipleH1 => 30
    case SlowLoadTime => 55
    case _ => 0
  }

  /** `rest`, preceded by `k` when its rule fired. */
  function Opt(fired: bool, k: IssueKind, rest: seq<IssueKind>): (r: seq<IssueKind>)
    ensures |r| == |rest| + (if fired then 1 else 0)
    ensures forall x :: x in r <==> (fired && x == k) || x in rest
  {
    if fired then [k] + rest else rest
  }

  /** The kinds whose rule fires on the page, in rule order. */
  function FiredKinds(p: CrawlRow): seq<IssueKind> {
    Opt(PhpEmpty(p.metaDescription), MissingMetaDescription,
    Opt(PhpEmpty(p.title), MissingTitle,
    Opt(p.wordCount < 300, ThinContent,
    Opt(p.imagesWithoutAlt > 0, MissingAltText,
    Opt(|p.h1Tags| == 0, MissingH1,
    Opt(|p.h1Tags| > 1, MultipleH1,
    Opt(p.loadTime > 3.0, SlowLoadTime, [])))))))
  }

  /** Which rule fires is decided by that rule's condition alone. */
  lemma FiredKindsFacts(p: CrawlRow)
    ensures |FiredKinds(p)| <= 6
    ensures MissingMetaDescription in FiredKinds(p) <==> PhpEmpty(p.metaDescription)
    ensures MissingTitle in FiredKinds(p) <==> PhpEmpty(p.title)
    ensures ThinContent in FiredKinds(p) <==> p.wordCount < 300
    ensures MissingAltText in FiredKinds(p) <==> p.imagesWithoutAlt > 0
    ensures MissingH1 in FiredKinds(p) <==> |p.h1Tags| == 0
    ensures MultipleH1 in FiredKinds(p) <==> |p.h1Tags| > 1
    ensures SlowLoadTime in FiredKinds(p) <==> p.loadTime > 3.0
    ensures forall k :: k in FiredKinds(p) ==> RulePriority(k) > 0
  {
    FiredKindsLength(p);
    FiredKindsMembers(p);
  }

  /** The rule whose condition `k` names fires on the page. */
  predicate Fires(k: IssueKind, p: CrawlRow) {
    match k
    case MissingMetaDescription => PhpEmpty(p.metaDescription)
    case MissingTitle => PhpEmpty(p.title)
    case ThinContent => p.wordCount < 300
    case MissingAltText => p.imagesWithoutAlt > 0
    case MissingH1 => |p.h1Tags| == 0
    case MultipleH1 => |p.h1Tags| > 1
    case SlowLoadTime => p.loadTime > 3.0
    case _ => false
  }

  lemma FiredKindsMembers(p: CrawlRow)
    ensures forall k :: k in FiredKinds(p) <==> Fires(k, p)
  {
  }

  lemma FiredKindsLength(p: CrawlRow)
    ensures |FiredKinds(p)| <= 6
  {
    var r5 := Opt(|p.h1Tags| == 0, MissingH1, Opt(|p.h1Tags| > 1, MultipleH1, Opt(p.loadTime > 3.0, SlowLoadTime, [])));
    assert |r5| <= 2;
  }

  predicate Has(r: seq<Finding>, k: IssueKind) {
    exists i :: 0 <= i < |r| && r[i].kind == k
  }

  /** The rules applied to one page; `postId` is `url_to_postid` of its URL.
      Each rule adds its finding exactly when its condition holds; a page
      yields at most six, since no H1 and several H1s exclude each other. */
  function AnalyzePage(p: CrawlRow, postId: int): (r: seq<Finding>)
    ensures |r| <= 6
    ensures forall i :: 0 <= i < |r| ==> r[i].url == p.url && r[i].postId == postId
    ensures forall i :: 0 <= i < |r| ==>
      r[i].severity == RuleSeverity(r[i].kind) && r[i].priority == RulePriority(r[i].kind)
    ensures forall i :: 0 <= i < |r| ==> r[i].autoFixable == r[i].fixAvailable == FixableKind(r[i].kind)
    ensures Has(r, MissingMetaDescription) <==> PhpEmpty(p.metaDescription)
    ensures Has(r, MissingTitle) <==> PhpEmpty(p.title)
    ensures Has(r, ThinContent) <==> p.wordCount < 300
    ensures Has(r, MissingAltText) <==> p.imagesWithoutAlt > 0
    ensures Has(r, MissingH1) <==> |p.h1Tags| == 0
    ensures Has(r, MultipleH1) <==> |p.h1Tags| > 1
    ensures Has(r, SlowLoadTime) <==> p.loadTime > 3.0
    ensures forall k :: Has(r, k) ==> RulePriority(k) > 0
  {
    FiredKindsFacts(p);
    FindingsFor(FiredKinds(p), p, postId)
  }

  /** One finding per fired kind, with that rule's fixed attributes. */
  function FindingsFor(ks: seq<IssueKind>, p: CrawlRow, postId: int): (r: seq<Finding>)
    ensures |r| == |ks|
    ensures forall i :: 0 <= i < |r| ==> r[i].kind == ks[i] && r[i].url == p.url && r[i].postId == postId
    ensures forall i :: 0 <= i < |r| ==>
      r[i].severity == RuleSeverity(r[i].kind) && r[i].priority == RulePriority(r[i].kind)
    ensures forall i :: 0 <= i < |r| ==> r[i].autoFixable == r[i].fixAvailable == FixableKind(r[i].kind)
    ensures forall k :: Has(r, k) <==> k in ks
  {
    var r := seq(|ks|, i requires 0 <= i < |ks| =>
      Finding(ks[i], RuleSeverity(ks[i]), p.url, postId, FixableKind(ks[i]), FixableKind(ks[i]), RulePriority(ks[i])));
    assert forall k :: Has(r, k) <==> k in ks by {
      forall k ensures Has(r, k) <==> k in ks {
        if k in ks {
          var i :| 0 <= i < |ks| && ks[i] == k;
          assert r[i].kind == k;
        }
      }
    }
    r
  }

  /** `analyze_crawl_results($audit_id)`: the findings of every page, page by page. */
  function AnalyzeCrawl(pages: seq<CrawlRow>, urlToPostId: string -> int): (r: seq<Finding>)
    ensures |r| <= 6 * |pages|
  {
    if |pages| == 0 then []
    else AnalyzePage(pages[0], urlToPostId(pages[0].url)) + AnalyzeCrawl(pages[1..], urlToPostId)
  }

  /** Findings of a crawl split in two are the findings of each part, in order. */
  lemma {:induction false} AnalyzeCrawlAppend(a: seq<CrawlRow>, b: seq<CrawlRow>, urlToPostId: string -> int)
    ensures AnalyzeCrawl(a + b, urlToPostId) == AnalyzeCrawl(a, urlToPostId) + AnalyzeCrawl(b, urlToPostId)
    decreases |a|
  {
    if |a| > 0 {
      var h := AnalyzePage(a[0], urlToPostId(a[0].url));
      assert (a + b)[0] == a[0];
      assert (a + b)[1..] == a[1..] + b;
      assert AnalyzeCrawl(a + b, urlToPostId) == h + AnalyzeCrawl(a[1..] + b, urlToPostId);
      AnalyzeCrawlAppend(a[1..], b, urlToPostId);
      assert h + (AnalyzeCrawl(a[1..], urlToPostId) + AnalyzeCrawl(b, urlToPostId)) ==
        h + AnalyzeCrawl(a[1..], urlToPostId) + AnalyzeCrawl(b, urlToPostId);
    } else {
      assert a + b == b;
    }
  }
}
