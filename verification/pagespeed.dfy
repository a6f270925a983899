/** The PageSpeed Insights connector
    (`modules/data-collection/class-pagespeed-connector.php`): the request's
    error paths, the reading of a Lighthouse report (score, metrics,
    opportunities, diagnostics, passed audits), the Core Web Vitals
    assessment and the recommendations. The HTTP response is an input and
    `json_decode` a parameter; metric values are exact reals. */
module PageSpeed {
  import opened Common
  import opened Sorting
  import Settings

  /** A JSON number: PHP keeps integers and floats apart, and `=== 1`
      accepts only the integer. */
  datatype Number = IntNum(i: int) | FloatNum(f: real) {
    function Value(): real {
      match this
      case IntNum(i) => i as real
      case FloatNum(f) => f
    }
  }

  /** PHP's `$score < $bound` for a score that may be null: null compares as
      `false` against a truthy number, so it is below any non-zero bound. */
  predicate Below(score: Option<Number>, bound: real) {
    match score
    case None => bound != 0.0
    case Some(n) => n.Value() < bound
  }

  /** One Lighthouse audit, as `json_decode` gives it. */
  datatype Audit = Audit(title: string, description: string, score: Option<Number>,
                         numericValue: Option<real>, displayValue: Option<string>)

  /** The decoded report: the performance category score and the audits in
      the order the JSON lists them; ids are distinct, as array keys are. */
  datatype Lighthouse = Lighthouse(performance: Option<real>, audits: seq<(string, Audit)>)

  /** `$audits[$id]`, if set. */
  function Lookup(audits: seq<(string, Audit)>, id: string): (r: Option<Audit>)
    ensures r.Some? <==> exists k :: 0 <= k < |audits| && audits[k].0 == id
    ensures r.Some? ==> (id, r.value) in audits
  {
    if |audits| == 0 then None
    else if audits[0].0 == id then Some(audits[0].1)
    else Lookup(audits[1..], id)
  }

  // ---------------------------------------------------------------- rounding

  /** PHP `round()` to an integer: halves away from zero. */
  function Round(x: real): (r: int)
    ensures x >= 0.0 ==> r as real <= x + 0.5 < r as real + 1.0
    ensures x < 0.0 ==> r as real - 1.0 < x - 0.5 <= r as real
  {
    if x >= 0.0 then (x + 0.5).Floor else -((-x + 0.5).Floor)
  }

  // ---------------------------------------------------------------- parsing

  datatype Metrics = Metrics(fcp: Option<real>, lcp: Option<real>, cls: Option<real>, fid: Option<real>,
                             ttfb: Option<real>, si: Option<real>, tbt: Option<real>, tti: Option<real>)

  datatype Opportunity = Opportunity(id: string, title: string, description: string, score: Option<Number>, savingsMs: Option<real>)

  datatype Diagnostic = Diagnostic(id: string, title: string, description: string, score: Option<Number>, value: Option<string>)

  datatype Passed = Passed(id: string, title: string)

  datatype Analysis = Analysis(performanceScore: int, metrics: Metrics, opportunities: seq<Opportunity>,
                               diagnostics: seq<Diagnostic>, passed: seq<Passed>)

  function NumericValue(audits: seq<(string, Audit)>, id: string): Option<real> {
    match Lookup(audits, id)
    case None => None
    case Some(a) => a.numericValue
  }

  function MetricsOf(audits: seq<(string, Audit)>): (m: Metrics)
    ensures m.lcp == NumericValue(audits, "largest-contentful-paint")
    ensures m.fid == NumericValue(audits, "max-potential-fid")
    ensures m.cls == NumericValue(audits, "cumulative-layout-shift")
  {
    Metrics(NumericValue(audits, "first-contentful-paint"), NumericValue(audits, "largest-contentful-paint"),
            NumericValue(audits, "cumulative-layout-shift"), NumericValue(audits, "max-potential-fid"),
            NumericValue(audits, "server-response-time"), NumericValue(audits, "speed-index"),
            NumericValue(audits, "total-blocking-time"), NumericValue(audits, "interactive"))
  }

  const OpportunityIds := ["render-blocking-resources", "unminified-css", "unminified-javascript",
    "unused-css-rules", "unused-javascript", "modern-image-formats", "offscreen-images",
    "uses-text-compression", "uses-optimized-images", "uses-responsive-images", "efficient-animated-content"]

  const DiagnosticIds := ["mainthread-work-breakdown", "bootup-time", "uses-long-cache-ttl", "total-byte-weight",
    "dom-size", "critical-request-chains", "user-timings", "redirects", "uses-rel-preconnect"]

  /** Whether the report holds a failing audit of that id. */
  predicate Failing(audits: seq<(string, Audit)>, id: string) {
    Lookup(audits, id).Some? && Below(Lookup(audits, id).value.score, 1.0)
  }

  /** `extract_opportunities` over a list of ids: the failing ones, in list order. */
  function OpportunitiesOver(audits: seq<(string, Audit)>, ids: seq<string>): (r: seq<Opportunity>)
    ensures |r| <= |ids|
    ensures forall k :: 0 <= k < |r| ==>
      r[k].id in ids && Failing(audits, r[k].id) && r[k].score == Lookup(audits, r[k].id).value.score
  {
    if |ids| == 0 then []
    else
      var rest := OpportunitiesOver(audits, ids[1..]);
      var a := Lookup(audits, ids[0]);
      if a.Some? && Below(a.value.score, 1.0) then
        [Opportunity(ids[0], a.value.title, a.value.description, a.value.score, a.value.numericValue)] + rest
      else rest
  }

  function OpportunityId(o: Opportunity): string {
    o.id
  }

  function FailingIn(audits: seq<(string, Audit)>): string -> bool {
    id => Failing(audits, id)
  }

  /** The opportunities are the failing ids of the list, in list order. */
  lemma {:induction false} OpportunityIdsFilter(audits: seq<(string, Audit)>, ids: seq<string>)
    ensures Map(OpportunitiesOver(audits, ids), OpportunityId) == Filter(ids, FailingIn(audits))
  {
    if |ids| > 0 {
      OpportunityIdsFilter(audits, ids[1..]);
    }
  }

  /** An id of the list is reported exactly when its audit is failing. */
  lemma OpportunitiesExactly(audits: seq<(string, Audit)>, ids: seq<string>, id: string)
    ensures (exists k :: 0 <= k < |OpportunitiesOver(audits, ids)| && OpportunitiesOver(audits, ids)[k].id == id) <==>
      id in ids && Failing(audits, id)
  {
    var r := OpportunitiesOver(audits, ids);
    var m := Map(r, OpportunityId);
    OpportunityIdsFilter(audits, ids);
    FilterMember(ids, FailingIn(audits), id);
    assert (exists k :: 0 <= k < |r| && r[k].id == id) <==> id in m by {
      assert forall k :: 0 <= k < |r| ==> m[k] == r[k].id;
    }
  }

  /** Position of an id in a list. */
  function IndexOf(ids: seq<string>, id: string): (i: nat)
    requires id in ids
    ensures i < |ids| && ids[i] == id
  {
    if ids[0] == id then 0 else 1 + IndexOf(ids[1..], id)
  }

  predicate InListOrder(r: seq<Opportunity>, ids: seq<string>) {
    forall i, j :: 0 <= i < j < |r| ==> r[i].id in ids && r[j].id in ids && IndexOf(ids, r[i].id) < IndexOf(ids, r[j].id)
  }

  /** Opportunities come in the order of the list. */
  lemma {:induction false} OpportunitiesInListOrder(audits: seq<(string, Audit)>, ids: seq<string>)
    requires Distinct(ids)
    ensures InListOrder(OpportunitiesOver(audits, ids), ids)
  {
    if |ids| > 0 {
      var rest := OpportunitiesOver(audits, ids[1..]);
      assert Distinct(ids[1..]);
      OpportunitiesInListOrder(audits, ids[1..]);
      if Failing(audits, ids[0]) {
        assert ids[0] !in ids[1..] by {
          forall p | 0 <= p < |ids[1..]| ensures ids[1..][p] != ids[0] {
            assert ids[1..][p] == ids[p + 1];
          }
        }
        var r := OpportunitiesOver(audits, ids);
        assert r == [r[0]] + rest && r[0].id == ids[0];
        ConsInListOrder(r[0], rest, ids);
      }
    }
  }

  /** The entry for a list's first id, put before entries in the order of
      the rest of the list, keeps the list's order. */
  lemma ConsInListOrder(o: Opportunity, rest: seq<Opportunity>, ids: seq<string>)
    requires |ids| > 0 && o.id == ids[0] && ids[0] !in ids[1..]
    requires InListOrder(rest, ids[1..])
    requires forall k :: 0 <= k < |rest| ==> rest[k].id in ids[1..]
    ensures InListOrder([o] + rest, ids)
  {
    var r := [o] + rest;
    forall k | 0 <= k < |rest| ensures rest[k].id in ids && IndexOf(ids, rest[k].id) == 1 + IndexOf(ids[1..], rest[k].id) {
      var p := IndexOf(ids[1..], rest[k].id);
      assert ids[p + 1] == rest[k].id;
    }
    forall i, j | 0 <= i < j < |r| ensures r[i].id in ids && r[j].id in ids && IndexOf(ids, r[i].id) < IndexOf(ids, r[j].id) {
      assert r[j] == rest[j - 1];
      if i > 0 {
        assert r[i] == rest[i - 1];
      }
    }
  }

  /** The plugin's opportunities follow its fixed list, and each listed
      audit that is failing is among them. */
  lemma ExtractOpportunitiesOrdered(audits: seq<(string, Audit)>, id: string)
    ensures InListOrder(ExtractOpportunities(audits), OpportunityIds)
    ensures (exists k :: 0 <= k < |ExtractOpportunities(audits)| && ExtractOpportunities(audits)[k].id == id) <==>
      id in OpportunityIds && Failing(audits, id)
  {
    assert Distinct(OpportunityIds);
    OpportunitiesInListOrder(audits, OpportunityIds);
    OpportunitiesExactly(audits, OpportunityIds, id);
  }

  function ExtractOpportunities(audits: seq<(string, Audit)>): (r: seq<Opportunity>)
    ensures forall k :: 0 <= k < |r| ==> r[k].id in OpportunityIds && Failing(audits, r[k].id)
    ensures Map(r, OpportunityId) == Filter(OpportunityIds, FailingIn(audits))
  {
    OpportunityIdsFilter(audits, OpportunityIds);
    OpportunitiesOver(audits, OpportunityIds)
  }

  /** `isset($audits[$id])`. */
  function Present(audits: seq<(string, Audit)>): string -> bool {
    id => Lookup(audits, id).Some?
  }

  /** The entry `extract_diagnostics` builds for a present audit. */
  function DiagnosticOf(id: string, a: Audit): Diagnostic {
    Diagnostic(id, a.title, a.description, a.score, a.displayValue)
  }

  function DiagnosticId(d: Diagnostic): string {
    d.id
  }

  /** `extract_diagnostics` over a list of ids: every present one, in list order. */
  function DiagnosticsOver(audits: seq<(string, Audit)>, ids: seq<string>): (r: seq<Diagnostic>)
    ensures |r| <= |ids|
    ensures forall k :: 0 <= k < |r| ==>
      r[k].id in ids && Lookup(audits, r[k].id).Some? && r[k] == DiagnosticOf(r[k].id, Lookup(audits, r[k].id).value)
  {
    if |ids| == 0 then []
    else
      var rest := DiagnosticsOver(audits, ids[1..]);
      var a := Lookup(audits, ids[0]);
      if a.Some? then [Diagnostic(ids[0], a.value.title, a.value.description, a.value.score, a.value.displayValue)] + rest
      else rest
  }

  /** The diagnostics are the present ids of the list, in list order, each
      with its audit's fields. */
  lemma {:induction false} DiagnosticsExactly(audits: seq<(string, Audit)>, ids: seq<string>)
    ensures Map(DiagnosticsOver(audits, ids), DiagnosticId) == Filter(ids, Present(audits))
  {
    if |ids| > 0 {
      DiagnosticsExactly(audits, ids[1..]);
    }
  }

  function ExtractDiagnostics(audits: seq<(string, Audit)>): (r: seq<Diagnostic>)
    ensures forall k :: 0 <= k < |r| ==> r[k].id in DiagnosticIds && Lookup(audits, r[k].id).Some?
    ensures Map(r, DiagnosticId) == Filter(DiagnosticIds, Present(audits))
  {
    DiagnosticsExactly(audits, DiagnosticIds);
    DiagnosticsOver(audits, DiagnosticIds)
  }

  /** `extract_passed_audits`: the audits whose score is exactly the integer 1. */
  function ExtractPassed(audits: seq<(string, Audit)>): (r: seq<Passed>)
    ensures |r| <= |audits|
    ensures forall k :: 0 <= k < |r| ==> exists a :: (r[k].id, a) in audits && a.score == Some(IntNum(1)) && a.title == r[k].title
  {
    if |audits| == 0 then []
    else
      var rest := ExtractPassed(audits[1..]);
      forall k | 0 <= k < |rest| ensures exists a :: (rest[k].id, a) in audits && a.score == Some(IntNum(1)) && a.title == rest[k].title {
        var a :| (rest[k].id, a) in audits[1..] && a.score == Some(IntNum(1)) && a.title == rest[k].title;
        assert (rest[k].id, a) in audits;
      }
      if audits[0].1.score == Some(IntNum(1)) then [Passed(audits[0].0, audits[0].1.title)] + rest else rest
  }

  /** Every audit scored 1 is listed as passed. */
  lemma {:induction false} PassedComplete(audits: seq<(string, Audit)>, k: nat)
    requires k < |audits| && audits[k].1.score == Some(IntNum(1))
    ensures Passed(audits[k].0, audits[k].1.title) in ExtractPassed(audits)
  {
    if k > 0 {
      PassedComplete(audits[1..], k - 1);
    }
  }

  /** A float 1.0 is not the integer 1: such an audit is not listed. */
  lemma FloatOneNotPassed(id: string, a: Audit)
    requires a.score == Some(FloatNum(1.0))
    ensures ExtractPassed([(id, a)]) == []
  {
  }

  /** `parse_pagespeed_results`. */
  function ParseResults(report: Lighthouse): (r: Analysis)
    ensures r.performanceScore == Round(report.performance.GetOr(0.0) * 100.0)
    ensures 0.0 <= report.performance.GetOr(0.0) <= 1.0 ==> 0 <= r.performanceScore <= 100
    ensures r.metrics == MetricsOf(report.audits)
    ensures r.opportunities == ExtractOpportunities(report.audits)
    ensures r.diagnostics == ExtractDiagnostics(report.audits)
    ensures r.passed == ExtractPassed(report.audits)
  {
    Analysis(Round(report.performance.GetOr(0.0) * 100.0), MetricsOf(report.audits), ExtractOpportunities(report.audits),
             ExtractDiagnostics(report.audits), ExtractPassed(report.audits))
  }

  // ---------------------------------------------------------------- requests

  /** An HTTP reply: the status code and the body. */
  type Reply = Result<(int, string)>

  /** `analyze_url($url, $strategy)`: `reply` is the answer to the request
      for that URL and strategy. */
  function AnalyzeUrl(apiKey: string, reply: Reply, decode: string -> Lighthouse): (r: Result<Analysis>)
    ensures PhpEmpty(apiKey) ==> r == Err(NoApiKey)
    ensures !PhpEmpty(apiKey) && reply.Err? ==> r == Err(reply.error)
    ensures !PhpEmpty(apiKey) && reply.Ok? && reply.value.0 != 200 ==> r == Err(ApiError)
    ensures r.Ok? <==> !PhpEmpty(apiKey) && reply.Ok? && reply.value.0 == 200
    ensures r.Ok? ==> r.value == ParseResults(decode(reply.value.1))
  {
    if PhpEmpty(apiKey) then Err(NoApiKey)
    else if reply.Err? then Err(reply.error)
    else if reply.value.0 != 200 then Err(ApiError)
    else Ok(ParseResults(decode(reply.value.1)))
  }

  /** `analyze_multiple_urls($urls)`: `fetch` answers each URL. A URL that
      fails is left out; the others map to their analyses. */
  function AnalyzeMultipleUrls(apiKey: string, urls: seq<string>, fetch: string -> Reply, decode: string -> Lighthouse): (r: map<string, Analysis>)
    ensures forall u :: u in r <==> u in urls && AnalyzeUrl(apiKey, fetch(u), decode).Ok?
    ensures forall u :: u in r ==> r[u] == AnalyzeUrl(apiKey, fetch(u), decode).value
    decreases |urls|
  {
    if |urls| == 0 then map[]
    else
      var earlier := AnalyzeMultipleUrls(apiKey, urls[..|urls| - 1], fetch, decode);
      var u := urls[|urls| - 1];
      assert forall v :: v in urls <==> v in urls[..|urls| - 1] || v == u;
      match AnalyzeUrl(apiKey, fetch(u), decode)
      case Ok(a) => earlier[u := a]
      case Err(_) => earlier
  }

  /** Without a key nothing is analysed. */
  lemma NoKeyNoResults(urls: seq<string>, fetch: string -> Reply, decode: string -> Lighthouse)
    ensures AnalyzeMultipleUrls("", urls, fetch, decode) == map[]
  {
  }

  // ---------------------------------------------------------------- Core Web Vitals

  datatype Status = Good | NeedsImprovement | Poor

  function Rank(s: Status): nat {
    match s
    case Good => 0
    case NeedsImprovement => 1
    case Poor => 2
  }

  /** A metric against its two thresholds; strictly above a threshold
      is past it. */
  function Grade(value: real, needsAbove: real, poorAbove: real): (s: Status)
    requires needsAbove <= poorAbove
    ensures s == Poor <==> value > poorAbove
    ensures s == Good <==> value <= needsAbove
  {
    if value > poorAbove then Poor else if value > needsAbove then NeedsImprovement else Good
  }

  function LcpStatus(lcp: real): Status {
    Grade(lcp, 2500.0, 4000.0)
  }

  function FidStatus(fid: real): Status {
    Grade(fid, 100.0, 300.0)
  }

  function ClsStatus(cls: real): Status {
    Grade(cls, 0.1, 0.25)
  }

  datatype CwvStatus = CwvStatus(lcp: Status, fid: Status, cls: Status, overall: Status)

  /** `assess_core_web_vitals($metrics)`: a missing metric reads as 0. */
  function AssessCoreWebVitals(m: Metrics): (r: CwvStatus)
    ensures r.lcp == LcpStatus(m.lcp.GetOr(0.0)) && r.fid == FidStatus(m.fid.GetOr(0.0)) && r.cls == ClsStatus(m.cls.GetOr(0.0))
    ensures Rank(r.overall) >= Rank(r.lcp) && Rank(r.overall) >= Rank(r.fid) && Rank(r.overall) >= Rank(r.cls)
    ensures r.overall == r.lcp || r.overall == r.fid || r.overall == r.cls
  {
    var lcp := LcpStatus(m.lcp.GetOr(0.0));
    var fid := FidStatus(m.fid.GetOr(0.0));
    var cls := ClsStatus(m.cls.GetOr(0.0));
    var overall := if lcp == Poor || fid == Poor || cls == Poor then Poor
      else if lcp == NeedsImprovement || fid == NeedsImprovement || cls == NeedsImprovement then NeedsImprovement
      else Good;
    CwvStatus(lcp, fid, cls, overall)
  }

  /** The overall verdict is the worst of the three; with no metrics at
      all it is good. */
  lemma OverallIsWorst(m: Metrics)
    ensures var r := AssessCoreWebVitals(m);
      (r.overall == Poor <==> m.lcp.GetOr(0.0) > 4000.0 || m.fid.GetOr(0.0) > 300.0 || m.cls.GetOr(0.0) > 0.25) &&
      (r.overall == Good <==> m.lcp.GetOr(0.0) <= 2500.0 && m.fid.GetOr(0.0) <= 100.0 && m.cls.GetOr(0.0) <= 0.1)
    ensures AssessCoreWebVitals(Metrics(None, None, None, None, None, None, None, None)).overall == Good
  {
  }

  /** A slower page never grades better. */
  lemma GradeMonotone(a: real, b: real, needsAbove: real, poorAbove: real)
    requires needsAbove <= poorAbove && a <= b
    ensures Rank(Grade(a, needsAbove, poorAbove)) <= Rank(Grade(b, needsAbove, poorAbove))
  {
  }

  datatype Vitals = Vitals(lcp: Option<real>, fid: Option<real>, cls: Option<real>, score: int)

  datatype CwvReport = CwvReport(mobile: Vitals, desktop: Option<Vitals>, status: CwvStatus)

  function VitalsOf(a: Analysis): Vitals {
    Vitals(a.metrics.lcp, a.metrics.fid, a.metrics.cls, a.performanceScore)
  }

  /** `get_core_web_vitals($url)`: a failed mobile run is the error; a failed
      desktop run leaves the desktop part empty; the verdict is mobile's. */
  function GetCoreWebVitals(mobile: Result<Analysis>, desktop: Result<Analysis>): (r: Result<CwvReport>)
    ensures mobile.Err? ==> r == Err(mobile.error)
    ensures mobile.Ok? ==>
      r.Ok? && r.value.status == AssessCoreWebVitals(mobile.value.metrics) &&
      r.value.mobile.score == mobile.value.performanceScore && (r.value.desktop.Some? <==> desktop.Ok?)
    ensures mobile.Ok? ==>
      var m := mobile.value.metrics;
      r.value.mobile.lcp == m.lcp && r.value.mobile.fid == m.fid && r.value.mobile.cls == m.cls
    ensures mobile.Ok? && desktop.Ok? ==>
      var d := desktop.value;
      r.value.desktop == Some(Vitals(d.metrics.lcp, d.metrics.fid, d.metrics.cls, d.performanceScore))
  {
    if mobile.Err? then Err(mobile.error)
    else
      Ok(CwvReport(VitalsOf(mobile.value), if desktop.Ok? then Some(VitalsOf(desktop.value)) else None,
                   AssessCoreWebVitals(mobile.value.metrics)))
  }

  // ---------------------------------------------------------------- recommendations

  datatype Priority = High | Medium

  datatype Recommendation = Recommendation(priority: Priority, title: string, description: string,
                                           savingsMs: Option<real>, value: Option<string>)

  /** Lines 278-288: opportunities scored below 0.5 (or unscored). */
  function FromOpportunities(ops: seq<Opportunity>): (r: seq<Recommendation>)
    ensures |r| <= |ops|
    ensures forall k :: 0 <= k < |r| ==> r[k].priority == High
    ensures forall k :: 0 <= k < |r| ==> exists o :: o in ops && Below(o.score, 0.5) && o.title == r[k].title
  {
    if |ops| == 0 then []
    else
      var rest := FromOpportunities(ops[1..]);
      forall k | 0 <= k < |rest| ensures exists o :: o in ops && Below(o.score, 0.5) && o.title == rest[k].title {
        var o :| o in ops[1..] && Below(o.score, 0.5) && o.title == rest[k].title;
        assert o in ops;
      }
      if Below(ops[0].score, 0.5) then [Recommendation(High, ops[0].title, ops[0].description, ops[0].savingsMs, None)] + rest
      else rest
  }

  /** Lines 291-301: diagnostics with a score below 0.5. */
  function FromDiagnostics(ds: seq<Diagnostic>): (r: seq<Recommendation>)
    ensures |r| <= |ds|
    ensures forall k :: 0 <= k < |r| ==> r[k].priority == Medium
    ensures forall k :: 0 <= k < |r| ==> exists d :: d in ds && d.score.Some? && d.score.value.Value() < 0.5 && d.title == r[k].title
  {
    if |ds| == 0 then []
    else
      var rest := FromDiagnostics(ds[1..]);
      forall k | 0 <= k < |rest| ensures exists d :: d in ds && d.score.Some? && d.score.value.Value() < 0.5 && d.title == rest[k].title {
        var d :| d in ds[1..] && d.score.Some? && d.score.value.Value() < 0.5 && d.title == rest[k].title;
        assert d in ds;
      }
      if ds[0].score.Some? && ds[0].score.value.Value() < 0.5 then
        [Recommendation(Medium, ds[0].title, ds[0].description, None, ds[0].value)] + rest
      else rest
  }

  /** `get_recommendations($url)`: high-priority ones first, then medium. */
  function GetRecommendations(analysis: Result<Analysis>): (r: Result<seq<Recommendation>>)
    ensures analysis.Err? ==> r == Err(analysis.error)
    ensures r.Ok? ==> forall i, j :: 0 <= i < j < |r.value| && r.value[j].priority == High ==> r.value[i].priority == High
    ensures r.Ok? ==> |r.value| <= |analysis.value.opportunities| + |analysis.value.diagnostics|
  {
    if analysis.Err? then Err(analysis.error)
    else
      var high := FromOpportunities(analysis.value.opportunities);
      var medium := FromDiagnostics(analysis.value.diagnostics);
      assert forall j :: |high| <= j < |high + medium| ==> (high + medium)[j] == medium[j - |high|];
      Ok(high + medium)
  }

  /** An opportunity the plugin recommends acting on. */
  predicate Urgent(o: Opportunity) {
    Below(o.score, 0.5)
  }

  function HighOf(o: Opportunity): Recommendation {
    Recommendation(High, o.title, o.description, o.savingsMs, None)
  }

  /** A diagnostic with a score below one half. */
  predicate Weak(d: Diagnostic) {
    d.score.Some? && d.score.value.Value() < 0.5
  }

  function MediumOf(d: Diagnostic): Recommendation {
    Recommendation(Medium, d.title, d.description, None, d.value)
  }

  /** One high-priority recommendation per urgent opportunity, in order. */
  lemma {:induction false} FromOpportunitiesExactly(ops: seq<Opportunity>)
    ensures FromOpportunities(ops) == Map(Filter(ops, Urgent), HighOf)
  {
    if |ops| > 0 {
      FromOpportunitiesExactly(ops[1..]);
    }
  }

  /** One medium-priority recommendation per weak diagnostic, in order. */
  lemma {:induction false} FromDiagnosticsExactly(ds: seq<Diagnostic>)
    ensures FromDiagnostics(ds) == Map(Filter(ds, Weak), MediumOf)
  {
    if |ds| > 0 {
      FromDiagnosticsExactly(ds[1..]);
    }
  }

  /** The recommendations are exactly the urgent opportunities followed by the
      weak diagnostics, each list in its own order. */
  lemma RecommendationsExactly(a: Analysis)
    ensures GetRecommendations(Ok(a)) ==
      Ok(Map(Filter(a.opportunities, Urgent), HighOf) + Map(Filter(a.diagnostics, Weak), MediumOf))
  {
    FromOpportunitiesExactly(a.opportunities);
    FromDiagnosticsExactly(a.diagnostics);
  }

  lemma {:induction false} NoLowDiagnostics(ds: seq<Diagnostic>)
    requires forall k :: 0 <= k < |ds| ==> ds[k].score.Some? && ds[k].score.value.Value() >= 0.5
    ensures FromDiagnostics(ds) == []
  {
    if |ds| > 0 {
      NoLowDiagnostics(ds[1..]);
    }
  }

  /** An analysis with nothing failing recommends nothing. */
  lemma AllPassingNoRecommendations(a: Analysis)
    requires a.opportunities == [] && forall k :: 0 <= k < |a.diagnostics| ==> a.diagnostics[k].score == Some(IntNum(1))
    ensures GetRecommendations(Ok(a)) == Ok([])
  {
    NoLowDiagnostics(a.diagnostics);
  }

  /** `is_configured()`. */
  predicate IsConfigured(apiKey: string) {
    !PhpEmpty(apiKey)
  }
}
