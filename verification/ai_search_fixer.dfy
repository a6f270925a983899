/** The AI-search fixer: runs the direct-answer, FAQ, table-of-contents and
    E-E-A-T fixes a post's readiness analysis calls for, gates the generated
    text through the PM agent's review, logs the run, and reports on the
    scores it stored. Every AI reply, regular-expression result and write
    outcome of a run is an input. */
module AiSearchFixer {
  import opened Common
  import opened WordPress
  import Sorting
  import Settings
  import AiAnalyzer
  import AiSearchOptimizer
  import PmAgent
  import FaqGenerator
  import DirectAnswer
  import EeatEnhancer

  // ---------------------------------------------------------------- options

  datatype Options = Options(
    addDirectAnswer: bool, generateFaq: bool, addToc: bool, enhanceEeat: bool, generateSchema: bool, pmReview: bool)

  function Given(given: map<string, bool>, key: string): (b: bool)
    ensures key !in given ==> b
  {
    if key in given then given[key] else true
  }

  /** `wp_parse_args($options, $defaults)`: every option is on unless the
      caller turns it off. */
  function WithDefaults(given: map<string, bool>): (o: Options)
    ensures given == map[] ==> o == Options(true, true, true, true, true, true)
    ensures o.pmReview == Given(given, "pm_review") && o.addDirectAnswer == Given(given, "add_direct_answer")
    ensures o.generateFaq == Given(given, "generate_faq") && o.addToc == Given(given, "add_toc")
    ensures o.enhanceEeat == Given(given, "enhance_eeat") && o.generateSchema == Given(given, "generate_schema")
  {
    Options(Given(given, "add_direct_answer"), Given(given, "generate_faq"), Given(given, "add_toc"),
      Given(given, "enhance_eeat"), Given(given, "generate_schema"), Given(given, "pm_review"))
  }

  // ---------------------------------------------------------------- report

  datatype Outcome = Added | Rejected

  /** The messages a run records; each carries the failing step's code. */
  datatype FixError = AnalysisFailed(code: ErrorCode) | DirectAnswerFailed(code: ErrorCode) | FaqFailed(code: ErrorCode)

  datatype Optimizations<J> = Optimizations(
    directAnswer: Option<Outcome>, faq: Option<Outcome>, toc: bool, eeat: Option<EeatEnhancer.Enhancements<J>>)

  datatype Reviews = Reviews(directAnswer: Option<PmAgent.Review>, faq: Option<PmAgent.Review>)

  /** What `optimize_post_for_ai_search` returns. `faqCount` is the question
      count of an inserted FAQ that had one. */
  datatype Report<J> = Report(
    postId: int,
    optimizations: Optimizations<J>,
    reviews: Reviews,
    errors: seq<FixError>,
    beforeScore: int,
    afterScore: int,
    before: Option<AiSearchOptimizer.Readiness>,
    after: Option<AiSearchOptimizer.Readiness>,
    improvement: Option<int>,
    faqCount: Option<nat>)

  function EmptyReport<J>(postId: int): (r: Report<J>)
    ensures r.errors == [] && r.beforeScore == 0 && r.afterScore == 0
  {
    Report(postId, Optimizations(None, None, false, None), Reviews(None, None), [], 0, 0, None, None, None, None)
  }

  // ---------------------------------------------------------------- inputs

  /** The environment of one run: the readiness analysis, the AI replies in
      call order, the tools and the outcome of each write. `analyze` stands
      for `analyze_ai_search_readiness`, which `AiSearchOptimizer.Analyze`
      models; the fixer's properties hold whatever it scores. */
  datatype Inputs<J> = Inputs(
    analyze: (Site, int) -> Result<AiSearchOptimizer.Readiness>,
    answerFirst: Result<string>, answerRetry: Result<string>, wordCount: string -> nat, answerWrite: WriteOutcome,
    hasProfile: bool, reviewDecode: string -> Option<AiAnalyzer.Json<PmAgent.Review>>,
    answerReview: Result<string>, faqReview: Result<string>,
    faqReply: Result<string>, faqDecode: string -> Option<seq<FaqGenerator.Pair>>, formatters: FaqGenerator.Formatters,
    conclusionAt: string -> Option<nat>, faqWrite: WriteOutcome, schemaWrite: WriteOutcome,
    headings: string -> seq<DirectAnswer.Heading>, toc: DirectAnswer.TocTools, tocWrite: WriteOutcome,
    eeat: EeatEnhancer.EnhanceInputs<J>,
    now: string, scoreWrite: WriteOutcome, timeWrite: WriteOutcome)

  /** The description of the post's author, which the analysis reads. */
  function AuthorBio(site: Site, postId: int): string {
    if postId in site.posts then GetUser(site, site.posts[postId].author).description else ""
  }

  /** The analysis the fixer runs, with the post author's current
      description. */
  function RealAnalysis(m: AiSearchOptimizer.Matchers): (Site, int) -> Result<AiSearchOptimizer.Readiness> {
    (site: Site, postId: int) => AiSearchOptimizer.Analyze(site, postId, AuthorBio(site, postId), m)
  }

  /** The first analysis of a run: a missing post fails it, as it fails
      `AiSearchOptimizer.Analyze`. */
  function FirstAnalysis<J>(site: Site, postId: int, e: Inputs<J>): (r: Result<AiSearchOptimizer.Readiness>)
    ensures r.Ok? ==> postId in site.posts
    ensures postId !in site.posts ==> r == Err(PostNotFound)
  {
    if postId in site.posts then e.analyze(site, postId) else Err(PostNotFound)
  }

  /** The PM agent's verdict the fixer acts on: "approve" with a score of at
      least 70. */
  predicate Accepts(review: PmAgent.Review) {
    review.decision == Some("approve") && PmAgent.ScoreAtLeast(review.score, 70)
  }

  /** No post but `postId` changes. */
  ghost predicate OthersKept(a: Site, b: Site, postId: int) {
    (forall i :: i != postId ==> GetPost(b, i) == GetPost(a, i)) && (postId in b.posts <==> postId in a.posts)
  }

  lemma OthersKeptTrans(a: Site, b: Site, c: Site, postId: int)
    requires OthersKept(a, b, postId) && OthersKept(b, c, postId)
    ensures OthersKept(a, c, postId)
  {
  }

  /** The fixes leave a report's post and scores alone. */
  predicate SameScores<J>(a: Report<J>, b: Report<J>) {
    a.postId == b.postId && a.beforeScore == b.beforeScore && a.before == b.before &&
    a.afterScore == b.afterScore && a.after == b.after && a.improvement == b.improvement
  }

  // ---------------------------------------------------------------- the four fixes

  /** Whether the direct-answer fix runs: enabled and a score below 70. */
  predicate WantsDirectAnswer(o: Options, before: AiSearchOptimizer.Readiness) {
    o.addDirectAnswer && before.scores.directAnswer < 70
  }

  /** Lines 68-94: generate a direct answer; with the review on, insert it
      only when the review accepts it. */
  method DirectAnswerStep<J>(site: Site, postId: int, o: Options, before: AiSearchOptimizer.Readiness,
                             e: Inputs<J>, rep: Report<J>) returns (r: (Site, Report<J>))
    requires postId in site.posts && rep.optimizations.directAnswer == None
    ensures !WantsDirectAnswer(o, before) ==> r == (site, rep)
    ensures var ok := DirectAnswer.GenerateDirectAnswer(site, postId, e.answerFirst, e.answerRetry, e.wordCount).answer.Ok?;
      var accepted := Accepts(PmAgent.ReviewFix(e.hasProfile, e.answerReview, e.reviewDecode));
      (r.1.optimizations.directAnswer == Some(Added) <==> WantsDirectAnswer(o, before) && ok && (o.pmReview ==> accepted)) &&
      (r.1.optimizations.directAnswer == Some(Rejected) <==> WantsDirectAnswer(o, before) && ok && o.pmReview && !accepted) &&
      (r.1.errors == rep.errors + (if WantsDirectAnswer(o, before) && !ok then
        [DirectAnswerFailed(DirectAnswer.GenerateDirectAnswer(site, postId, e.answerFirst, e.answerRetry, e.wordCount).answer.error)]
        else []))
    ensures r.1.optimizations.directAnswer != Some(Added) ==> r.0 == site
    ensures r.1.optimizations.directAnswer == Some(Added) ==>
      var g := DirectAnswer.GenerateDirectAnswer(site, postId, e.answerFirst, e.answerRetry, e.wordCount);
      g.answer.Ok? && r.0 == DirectAnswer.InsertDirectAnswer(site, postId, g.answer.value, e.answerWrite).1
    ensures OthersKept(site, r.0, postId)
    ensures r.1.optimizations.(directAnswer := rep.optimizations.directAnswer) == rep.optimizations
    ensures r.1.reviews.faq == rep.reviews.faq && r.1.faqCount == rep.faqCount
    ensures SameScores(rep, r.1)
  {
    r := (site, rep);
    if WantsDirectAnswer(o, before) {
      var g := DirectAnswer.GenerateDirectAnswer(site, postId, e.answerFirst, e.answerRetry, e.wordCount);
      match g.answer
      case Err(code) =>
        r := (site, rep.(errors := rep.errors + [DirectAnswerFailed(code)]));
      case Ok(answer) =>
        var inserted := DirectAnswer.InsertDirectAnswer(site, postId, answer, e.answerWrite).1;
        var added := rep.(optimizations := rep.optimizations.(directAnswer := Some(Added)));
        if o.pmReview {
          var review := PmAgent.ReviewFix(e.hasProfile, e.answerReview, e.reviewDecode);
          var reviewed := rep.(reviews := rep.reviews.(directAnswer := Some(review)));
          if Accepts(review) {
            r := (inserted, reviewed.(optimizations := added.optimizations));
          } else {
            r := (site, reviewed.(optimizations := rep.optimizations.(directAnswer := Some(Rejected))));
          }
        } else {
          r := (inserted, added);
        }
    }
  }

  predicate WantsFaq(o: Options, before: AiSearchOptimizer.Readiness) {
    o.generateFaq && before.scores.faqSection < 60
  }

  /** The FAQ's HTML goes before the conclusion and its schema into post
      meta. */
  function PlaceFaq<J>(site: Site, postId: int, faq: FaqGenerator.Faq, e: Inputs<J>): (r: Site)
    ensures OthersKept(site, r, postId)
  {
    var s := FaqGenerator.InsertFaqIntoPost(site, postId, FaqGenerator.HtmlOf(faq), "before_conclusion", e.conclusionAt, e.faqWrite).1;
    FaqGenerator.SaveFaqSchema(s, postId, FaqGenerator.SchemaOf(faq), e.schemaWrite)
  }

  /** Lines 97-127, given the generator's outcome `faq` for the post: with the
      review on, insert the FAQ and save its schema only when the review
      accepts its HTML. */
  method FaqStep<J>(site: Site, postId: int, o: Options, before: AiSearchOptimizer.Readiness,
                    e: Inputs<J>, rep: Report<J>, faq: Result<FaqGenerator.Faq>) returns (r: (Site, Report<J>))
    requires postId in site.posts && rep.optimizations.faq == None
    ensures !WantsFaq(o, before) ==> r == (site, rep)
    ensures var accepted := Accepts(PmAgent.ReviewFix(e.hasProfile, e.faqReview, e.reviewDecode));
      (r.1.optimizations.faq == Some(Added) <==> WantsFaq(o, before) && faq.Ok? && (o.pmReview ==> accepted)) &&
      (r.1.optimizations.faq == Some(Rejected) <==> WantsFaq(o, before) && faq.Ok? && o.pmReview && !accepted) &&
      (r.1.errors == rep.errors + (if WantsFaq(o, before) && faq.Err? then [FaqFailed(faq.error)] else []))
    ensures r.1.optimizations.faq != Some(Added) ==> r.0 == site && r.1.faqCount == rep.faqCount
    ensures r.1.optimizations.faq == Some(Added) ==>
      faq.Ok? && r.0 == PlaceFaq(site, postId, faq.value, e)
      && r.1.faqCount == (if faq.value.Formatted? then Some(faq.value.questionCount) else None)
    ensures OthersKept(site, r.0, postId)
    ensures r.1.optimizations.(faq := rep.optimizations.faq) == rep.optimizations
    ensures r.1.reviews.directAnswer == rep.reviews.directAnswer
    ensures SameScores(rep, r.1)
  {
    r := (site, rep);
    if WantsFaq(o, before) {
      match faq
      case Err(code) =>
        r := (site, rep.(errors := rep.errors + [FaqFailed(code)]));
      case Ok(made) =>
        var placed := PlaceFaq(site, postId, made, e);
        var count := if made.Formatted? then Some(made.questionCount) else None;
        var added := rep.(optimizations := rep.optimizations.(faq := Some(Added)), faqCount := count);
        if o.pmReview {
          var review := PmAgent.ReviewFix(e.hasProfile, e.faqReview, e.reviewDecode);
          var reviewed := rep.(reviews := rep.reviews.(faq := Some(review)));
          if Accepts(review) {
            r := (placed, reviewed.(optimizations := added.optimizations, faqCount := count));
          } else {
            r := (site, reviewed.(optimizations := rep.optimizations.(faq := Some(Rejected))));
          }
        } else {
          r := (placed, added);
        }
    }
  }

  predicate WantsToc(o: Options, before: AiSearchOptimizer.Readiness) {
    o.addToc && before.checks.h2Count >= 4
  }

  /** Lines 130-136: a table of contents for a post with four or more H2
      headings; "added" whenever the generator did not fail. */
  method TocStep<J>(site: Site, postId: int, o: Options, before: AiSearchOptimizer.Readiness,
                    e: Inputs<J>, rep: Report<J>) returns (r: (Site, Report<J>))
    requires postId in site.posts
    ensures !WantsToc(o, before) ==> r == (site, rep)
    ensures r.1.optimizations.toc <==>
      rep.optimizations.toc || (WantsToc(o, before) && |e.headings(site.posts[postId].content)| > 0)
    ensures WantsToc(o, before) && |e.headings(site.posts[postId].content)| > 0 ==>
      var g := DirectAnswer.GenerateTableOfContents(site, postId, e.headings(site.posts[postId].content), e.toc, e.tocWrite);
      g.Ok? && r.0 == g.value.1
    ensures OthersKept(site, r.0, postId)
    ensures r.1 == rep || r.1 == rep.(optimizations := rep.optimizations.(toc := true))
  {
    r := (site, rep);
    if WantsToc(o, before) {
      match DirectAnswer.GenerateTableOfContents(site, postId, e.headings(site.posts[postId].content), e.toc, e.tocWrite)
      case Err(_) =>
      case Ok((_, s)) =>
        r := (s, rep.(optimizations := rep.optimizations.(toc := true)));
    }
  }

  predicate WantsEeat(o: Options, before: AiSearchOptimizer.Readiness) {
    o.enhanceEeat && before.scores.eeatSignals < 60
  }

  /** Lines 139-147: the E-E-A-T enhancements for a post whose signals score
      below 60. `enhance_post` always returns an array, so its failure
      message is never recorded. */
  method EeatStep<J>(site: Site, postId: int, o: Options, before: AiSearchOptimizer.Readiness,
                     e: Inputs<J>, rep: Report<J>) returns (r: (Site, Report<J>))
    ensures !WantsEeat(o, before) ==> r == (site, rep)
    ensures WantsEeat(o, before) ==>
      var (enh, s) := EeatEnhancer.EnhancePost(site, postId, e.eeat);
      r == (s, rep.(optimizations := rep.optimizations.(eeat := Some(enh))))
    ensures OthersKept(site, r.0, postId)
    ensures SameScores(rep, r.1)
  {
    r := (site, rep);
    if WantsEeat(o, before) {
      var (enh, s) := EeatEnhancer.EnhancePost(site, postId, e.eeat);
      r := (s, rep.(optimizations := rep.optimizations.(eeat := Some(enh))));
    }
  }

  // ---------------------------------------------------------------- log

  datatype LogEntry<J> = LogEntry(
    postId: int, timestamp: string, beforeScore: int, afterScore: int, improvement: int,
    optimizations: Optimizations<J>, errors: seq<FixError>)

  const MaxLogs := 100

  /** The stored log with one more entry: the newest last, at most 100. */
  function AppendLog<T>(logs: seq<T>, entry: T): (r: seq<T>)
    ensures |r| == if |logs| < MaxLogs then |logs| + 1 else MaxLogs
    ensures |r| > 0 && r[|r| - 1] == entry
    ensures r[..|r| - 1] == logs[|logs| + 1 - |r|..]
  {
    var all := logs + [entry];
    var r := KeepLast(all, MaxLogs);
    assert r == all[|all| - |r|..];
    assert r[..|r| - 1] == all[|all| - |r|..|all| - 1];
    r
  }

  datatype State<J> = State(site: Site, logs: seq<LogEntry<J>>)

  const ScoreKey := "sap_ai_search_score"
  const OptimizedKey := "sap_ai_search_optimized"

  /** An empty meta value, "" or "0", reads as the score 0. */
  lemma ZeroScoreEmpty(v: string)
    ensures PhpEmpty(v) ==> Settings.StringToInt(v) == 0
  {
    Settings.DecimalStringRoundTrip(0);
    assert Settings.DecimalString(0) == "0";
  }

  /** `log_optimization($post_id, $results)`: the entry goes into the log and
      the after score and the time into the post's meta. */
  function LogOptimization<J>(st: State<J>, rep: Report<J>, e: Inputs<J>): (r: State<J>)
    ensures r.logs == AppendLog(st.logs, LogEntry(rep.postId, e.now, rep.beforeScore, rep.afterScore,
      rep.improvement.GetOr(0), rep.optimizations, rep.errors))
    ensures e.scoreWrite.Stored? ==> Settings.StringToInt(GetMeta(r.site, rep.postId, ScoreKey)) == rep.afterScore
    ensures e.scoreWrite.Stored? && rep.afterScore != 0 ==> !PhpEmpty(GetMeta(r.site, rep.postId, ScoreKey))
    ensures r.site.posts == st.site.posts
  {
    var entry := LogEntry(rep.postId, e.now, rep.beforeScore, rep.afterScore, rep.improvement.GetOr(0),
      rep.optimizations, rep.errors);
    var s1 := UpdateMeta(st.site, rep.postId, ScoreKey, Settings.IntString(rep.afterScore), e.scoreWrite);
    Settings.IntStringRoundTrip(rep.afterScore);
    var s2 := UpdateMeta(s1, rep.postId, OptimizedKey, e.now, e.timeWrite);
    ZeroScoreEmpty(GetMeta(s2, rep.postId, ScoreKey));
    State(s2, AppendLog(st.logs, entry))
  }

  // ---------------------------------------------------------------- optimize

  /** The four fixes in order, on an analysed post. */
  method ApplyFixes<J>(site: Site, postId: int, o: Options, before: AiSearchOptimizer.Readiness,
                       e: Inputs<J>, rep: Report<J>) returns (r: (Site, Report<J>))
    requires postId in site.posts && rep.optimizations == Optimizations(None, None, false, None)
    ensures OthersKept(site, r.0, postId)
    ensures SameScores(rep, r.1)
    ensures r.1.optimizations.directAnswer.Some? ==> WantsDirectAnswer(o, before)
    ensures r.1.optimizations.faq.Some? ==> WantsFaq(o, before)
    ensures r.1.optimizations.toc ==> WantsToc(o, before)
    ensures r.1.optimizations.eeat.Some? <==> WantsEeat(o, before)
  {
    var r1 := ContentFixes(site, postId, o, before, e, rep);
    r := StructureFixes(r1.0, postId, o, before, e, r1.1);
    OthersKeptTrans(site, r1.0, r.0, postId);
  }

  /** The direct-answer and FAQ steps. */
  method ContentFixes<J>(site: Site, postId: int, o: Options, before: AiSearchOptimizer.Readiness,
                         e: Inputs<J>, rep: Report<J>) returns (r: (Site, Report<J>))
    requires postId in site.posts && rep.optimizations == Optimizations(None, None, false, None)
    ensures OthersKept(site, r.0, postId)
    ensures SameScores(rep, r.1)
    ensures r.1.optimizations.directAnswer.Some? ==> WantsDirectAnswer(o, before)
    ensures r.1.optimizations.faq.Some? ==> WantsFaq(o, before)
    ensures !r.1.optimizations.toc && r.1.optimizations.eeat == None
  {
    var r1 := DirectAnswerStep(site, postId, o, before, e, rep);
    var faq := FaqGenerator.GenerateFaq(r1.0, postId, e.faqReply, e.faqDecode, e.formatters);
    r := FaqStep(r1.0, postId, o, before, e, r1.1, faq);
    OthersKeptTrans(site, r1.0, r.0, postId);
  }

  /** The table-of-contents and E-E-A-T steps. */
  method StructureFixes<J>(site: Site, postId: int, o: Options, before: AiSearchOptimizer.Readiness,
                           e: Inputs<J>, rep: Report<J>) returns (r: (Site, Report<J>))
    requires postId in site.posts && !rep.optimizations.toc && rep.optimizations.eeat == None
    ensures OthersKept(site, r.0, postId)
    ensures SameScores(rep, r.1)
    ensures r.1.optimizations.directAnswer == rep.optimizations.directAnswer
    ensures r.1.optimizations.faq == rep.optimizations.faq
    ensures r.1.optimizations.toc ==> WantsToc(o, before)
    ensures r.1.optimizations.eeat.Some? <==> WantsEeat(o, before)
  {
    var r1 := TocStep(site, postId, o, before, e, rep);
    r := EeatStep(r1.0, postId, o, before, e, r1.1);
    OthersKeptTrans(site, r1.0, r.0, postId);
  }

  /** Lines 62-159 for a post whose analysis is `before`: the fixes, the
      second analysis and the log. */
  method RunFixes<J>(st: State<J>, postId: int, o: Options, before: AiSearchOptimizer.Readiness, e: Inputs<J>)
    returns (r: (State<J>, Report<J>))
    requires postId in st.site.posts
    ensures r.1.beforeScore == before.overall && r.1.before == Some(before) && r.1.postId == postId
    ensures r.1.optimizations.directAnswer.Some? ==> WantsDirectAnswer(o, before)
    ensures r.1.optimizations.faq.Some? ==> WantsFaq(o, before)
    ensures r.1.optimizations.toc ==> WantsToc(o, before)
    ensures r.1.optimizations.eeat.Some? <==> WantsEeat(o, before)
    ensures r.1.after.Some? ==>
      r.1.afterScore == r.1.after.value.overall && r.1.improvement == Some(r.1.afterScore - before.overall)
    ensures r.1.after.None? ==> r.1.afterScore == 0 && r.1.improvement == None
    ensures |r.0.logs| > 0 && r.0.logs[|r.0.logs| - 1].postId == postId
    ensures r.0.logs[|r.0.logs| - 1].afterScore == r.1.afterScore
    ensures e.scoreWrite.Stored? ==> Settings.StringToInt(GetMeta(r.0.site, postId, ScoreKey)) == r.1.afterScore
    ensures OthersKept(st.site, r.0.site, postId)
  {
    var rep := EmptyReport(postId).(beforeScore := before.overall, before := Some(before));
    var fixed := ApplyFixes(st.site, postId, o, before, e, rep);
    r := Reanalyze(State(fixed.0, st.logs), fixed.1, e);
    OthersKeptTrans(st.site, fixed.0, r.0.site, postId);
  }

  /** Lines 149-159: the second analysis, its score in the report, and the
      log entry. */
  method Reanalyze<J>(st: State<J>, rep: Report<J>, e: Inputs<J>) returns (r: (State<J>, Report<J>))
    requires rep.after.None?
    ensures r.1.postId == rep.postId && r.1.beforeScore == rep.beforeScore && r.1.before == rep.before
    ensures r.1.optimizations == rep.optimizations
    ensures r.1.after.Some? ==>
      r.1.afterScore == r.1.after.value.overall && r.1.improvement == Some(r.1.afterScore - rep.beforeScore)
    ensures r.1.after.None? ==> r.1.afterScore == rep.afterScore && r.1.improvement == rep.improvement
    ensures |r.0.logs| > 0 && r.0.logs[|r.0.logs| - 1].postId == rep.postId
    ensures r.0.logs[|r.0.logs| - 1].afterScore == r.1.afterScore
    ensures e.scoreWrite.Stored? ==> Settings.StringToInt(GetMeta(r.0.site, rep.postId, ScoreKey)) == r.1.afterScore
    ensures OthersKept(st.site, r.0.site, rep.postId)
  {
    var after := e.analyze(st.site, rep.postId);
    var done := if after.Ok? then
        rep.(afterScore := after.value.overall, after := Some(after.value),
             improvement := Some(after.value.overall - rep.beforeScore))
      else rep;
    r := (LogOptimization(st, done, e), done);
  }

  /** `optimize_post_for_ai_search($post_id, $options)`. A failed first
      analysis (a missing post always fails it) ends the run with its error,
      both scores 0 and nothing changed or logged. Otherwise the fixes run,
      the post is analysed again and the run is logged; no other post
      changes. */
  method OptimizePost<J>(st: State<J>, postId: int, given: map<string, bool>, e: Inputs<J>)
    returns (r: (State<J>, Report<J>))
    ensures var a := FirstAnalysis(st.site, postId, e);
      a.Err? ==> r.0 == st && r.1 == EmptyReport(postId).(errors := [AnalysisFailed(a.error)])
    ensures postId !in st.site.posts ==> r.1.errors == [AnalysisFailed(PostNotFound)]
    ensures r.1.postId == postId
    ensures var a := FirstAnalysis(st.site, postId, e);
      a.Ok? ==>
        r.1.beforeScore == a.value.overall && r.1.before == Some(a.value) &&
        (r.1.after.Some? ==>
          r.1.afterScore == r.1.after.value.overall && r.1.improvement == Some(r.1.afterScore - r.1.beforeScore)) &&
        |r.0.logs| > 0 && r.0.logs[|r.0.logs| - 1].postId == postId &&
        (r.1.optimizations.directAnswer.Some? ==> WantsDirectAnswer(WithDefaults(given), a.value)) &&
        (r.1.optimizations.faq.Some? ==> WantsFaq(WithDefaults(given), a.value)) &&
        (r.1.optimizations.toc ==> WantsToc(WithDefaults(given), a.value)) &&
        (r.1.optimizations.eeat.Some? <==> WantsEeat(WithDefaults(given), a.value))
    ensures OthersKept(st.site, r.0.site, postId)
  {
    match FirstAnalysis(st.site, postId, e)
    case Err(code) =>
      r := (st, EmptyReport(postId).(errors := [AnalysisFailed(code)]));
    case Ok(before) =>
      r := RunFixes(st, postId, WithDefaults(given), before, e);
  }

  /** `bulk_optimize($post_ids, $options)`: one run per id, in order, each on
      the site the previous left; a repeated id keeps its last report. The
      two-second pause between runs is not modelled. */
  method BulkOptimize<J>(st: State<J>, ids: seq<int>, given: map<string, bool>, e: Inputs<J>)
    returns (r: (State<J>, map<int, Report<J>>))
    ensures r.1.Keys == set id | id in ids
    ensures forall id :: id in r.1 ==> r.1[id].postId == id
    ensures forall i :: i !in ids ==> GetPost(r.0.site, i) == GetPost(st.site, i)
    ensures forall i :: i !in ids ==> (i in r.0.site.posts <==> i in st.site.posts)
  {
    var cur := st;
    var reports: map<int, Report<J>> := map[];
    for k := 0 to |ids|
      invariant reports.Keys == set id | id in ids[..k]
      invariant forall id :: id in reports ==> reports[id].postId == id
      invariant forall i :: i !in ids[..k] ==> GetPost(cur.site, i) == GetPost(st.site, i)
      invariant forall i :: i !in ids[..k] ==> (i in cur.site.posts <==> i in st.site.posts)
    {
      var run := OptimizePost(cur, ids[k], given, e);
      assert ids[..k + 1] == ids[..k] + [ids[k]];
      cur := run.0;
      reports := reports[ids[k] := run.1];
    }
    assert ids[..|ids|] == ids;
    r := (cur, reports);
  }

  /** `get_recommendations($post_id)`: the analysis' recommendations, or its
      error. */
  function GetRecommendations<J>(site: Site, postId: int, e: Inputs<J>): (r: Result<seq<AiSearchOptimizer.Category>>)
    ensures r.Err? <==> FirstAnalysis(site, postId, e).Err?
    ensures postId !in site.posts ==> r == Err(PostNotFound)
  {
    var a :- FirstAnalysis(site, postId, e);
    Ok(a.recommendations)
  }

  /** With the plugin's own analysis, a post is recommended exactly the
      categories it scores below the bar for. */
  lemma RealRecommendations<J>(site: Site, postId: int, e: Inputs<J>, m: AiSearchOptimizer.Matchers, c: AiSearchOptimizer.Category)
    requires e.analyze == RealAnalysis(m) && postId in site.posts
    ensures var r := GetRecommendations(site, postId, e);
      var scores := AiSearchOptimizer.Analyze(site, postId, AuthorBio(site, postId), m).value.scores;
      r.Ok? && (c in r.value <==> AiSearchOptimizer.ScoreOf(scores, c) < AiSearchOptimizer.Threshold(c))
  {
    assert FirstAnalysis(site, postId, e) == AiSearchOptimizer.Analyze(site, postId, AuthorBio(site, postId), m);
  }

  // ---------------------------------------------------------------- quick fix

  /** Whether a direct answer comes back for a post: only the post's
      existence and the AI's replies matter, not what the post says. */
  predicate Answered<J>(site: Site, postId: int, e: Inputs<J>) {
    DirectAnswer.GenerateDirectAnswer(site, postId, e.answerFirst, e.answerRetry, e.wordCount).answer.Ok?
  }

  lemma AnsweredIgnoresContent<J>(a: Site, b: Site, postId: int, e: Inputs<J>)
    requires postId in a.posts <==> postId in b.posts
    ensures Answered(a, postId, e) == Answered(b, postId, e)
  {
  }

  /** One recommendation of `quick_fix`: only high-priority ones act; a
      direct answer is generated and inserted, a FAQ generated and appended
      at the end; the schema action does nothing. The name of a fix that ran
      is returned. */
  method QuickFixOne<J>(site: Site, postId: int, c: AiSearchOptimizer.Category, e: Inputs<J>) returns (r: (Site, seq<string>))
    ensures r.1 == (
      if c == AiSearchOptimizer.DirectAnswerCat && Answered(site, postId, e) then ["direct_answer"]
      else if c == AiSearchOptimizer.FaqCat && postId in site.posts && e.faqReply.Ok? then ["faq"]
      else [])
    ensures r.1 == [] ==> r.0 == site
    ensures r.1 == ["direct_answer"] ==>
      var g := DirectAnswer.GenerateDirectAnswer(site, postId, e.answerFirst, e.answerRetry, e.wordCount);
      g.answer.Ok? && r.0 == DirectAnswer.InsertDirectAnswer(site, postId, g.answer.value, e.answerWrite).1
    ensures OthersKept(site, r.0, postId)
  {
    r := (site, []);
    if AiSearchOptimizer.PriorityOf(c) == AiSearchOptimizer.High {
      if c == AiSearchOptimizer.DirectAnswerCat {
        var g := DirectAnswer.GenerateDirectAnswer(site, postId, e.answerFirst, e.answerRetry, e.wordCount);
        if g.answer.Ok? {
          r := (DirectAnswer.InsertDirectAnswer(site, postId, g.answer.value, e.answerWrite).1, ["direct_answer"]);
        }
      } else if c == AiSearchOptimizer.FaqCat {
        var faq := FaqGenerator.GenerateFaq(site, postId, e.faqReply, e.faqDecode, e.formatters);
        if faq.Ok? {
          var html := FaqGenerator.HtmlOf(faq.value);
          r := (FaqGenerator.InsertFaqIntoPost(site, postId, html, "end", e.conclusionAt, e.faqWrite).1, ["faq"]);
        }
      }
    }
  }

  /** Recommendations in check order: each category at most once, the direct
      answer first. */
  predicate InCheckOrder(recs: seq<AiSearchOptimizer.Category>) {
    forall i, j :: 0 <= i < j < |recs| ==> AiSearchOptimizer.Rank(recs[i]) < AiSearchOptimizer.Rank(recs[j])
  }

  /** In check order, a recommendation has not come up before, and the FAQ
      never comes before the direct answer. */
  lemma CheckOrderPrefix(recs: seq<AiSearchOptimizer.Category>, k: nat)
    requires InCheckOrder(recs) && k < |recs|
    ensures recs[k] !in recs[..k]
    ensures recs[k] == AiSearchOptimizer.DirectAnswerCat ==> AiSearchOptimizer.FaqCat !in recs[..k]
  {
    forall i | 0 <= i < k
      ensures recs[..k][i] != recs[k]
      ensures recs[k] == AiSearchOptimizer.DirectAnswerCat ==> recs[..k][i] != AiSearchOptimizer.FaqCat
    {
      assert recs[..k][i] == recs[i];
      assert AiSearchOptimizer.Rank(recs[i]) < AiSearchOptimizer.Rank(recs[k]);
    }
  }

  /** The fixes `quick_fix` reports for recommendations in check order: the
      direct answer when recommended and generated, then the FAQ when
      recommended and the AI replied. Medium-priority recommendations play
      no part. */
  function Applied(recs: seq<AiSearchOptimizer.Category>, answered: bool, faqPossible: bool): seq<string> {
    (if AiSearchOptimizer.DirectAnswerCat in recs && answered then ["direct_answer"] else []) +
    (if AiSearchOptimizer.FaqCat in recs && faqPossible then ["faq"] else [])
  }

  /** One more recommendation in check order adds what its own fix reports. */
  lemma AppliedStep(front: seq<AiSearchOptimizer.Category>, c: AiSearchOptimizer.Category, answered: bool,
                    faqPossible: bool, out: seq<string>)
    requires c !in front
    requires c == AiSearchOptimizer.DirectAnswerCat ==> AiSearchOptimizer.FaqCat !in front
    requires out == (
      if c == AiSearchOptimizer.DirectAnswerCat && answered then ["direct_answer"]
      else if c == AiSearchOptimizer.FaqCat && faqPossible then ["faq"]
      else [])
    ensures Applied(front + [c], answered, faqPossible) == Applied(front, answered, faqPossible) + out
  {
    assert forall x :: x in front + [c] <==> x in front || x == c;
  }

  /** The loop of `quick_fix`: the recommendations in order, each on the site
      the previous left. */
  method QuickFixes<J>(site: Site, postId: int, recs: seq<AiSearchOptimizer.Category>, e: Inputs<J>)
    returns (r: (Site, seq<string>))
    ensures OthersKept(site, r.0, postId)
    ensures |r.1| <= |recs|
    ensures InCheckOrder(recs) ==>
      r.1 == Applied(recs, Answered(site, postId, e), postId in site.posts && e.faqReply.Ok?)
  {
    r := (site, []);
    var answered := Answered(site, postId, e);
    var faqPossible := postId in site.posts && e.faqReply.Ok?;
    for k := 0 to |recs|
      invariant OthersKept(site, r.0, postId)
      invariant |r.1| <= k
      invariant InCheckOrder(recs) ==> r.1 == Applied(recs[..k], answered, faqPossible)
    {
      var c := recs[k];
      AnsweredIgnoresContent(site, r.0, postId, e);
      var step := QuickFixOne(r.0, postId, c, e);
      if InCheckOrder(recs) {
        CheckOrderPrefix(recs, k);
        assert recs[..k + 1] == recs[..k] + [c];
        AppliedStep(recs[..k], c, answered, faqPossible, step.1);
      }
      OthersKeptTrans(site, r.0, step.0, postId);
      r := (step.0, r.1 + step.1);
    }
    assert recs[..|recs|] == recs;
  }

  datatype QuickFixReport = QuickFixReport(postId: int, fixesApplied: seq<string>, count: nat)

  /** `quick_fix($post_id)`: the analysis' error, or the high-priority fixes
      applied in recommendation order and their count. */
  method QuickFix<J>(site: Site, postId: int, e: Inputs<J>) returns (r: Result<(Site, QuickFixReport)>)
    ensures r.Err? <==> FirstAnalysis(site, postId, e).Err?
    ensures r.Err? ==> r.error == FirstAnalysis(site, postId, e).error
    ensures r.Ok? ==>
      r.value.1.postId == postId && r.value.1.count == |r.value.1.fixesApplied| && OthersKept(site, r.value.0, postId)
    ensures r.Ok? && InCheckOrder(FirstAnalysis(site, postId, e).value.recommendations) ==>
      r.value.1.fixesApplied ==
        Applied(FirstAnalysis(site, postId, e).value.recommendations, Answered(site, postId, e), e.faqReply.Ok?)
  {
    match FirstAnalysis(site, postId, e)
    case Err(code) =>
      r := Err(code);
    case Ok(a) =>
      var run := QuickFixes(site, postId, a.recommendations, e);
      r := Ok((run.0, QuickFixReport(postId, run.1, |run.1|)));
  }

  /** The plugin's own analysis lists its recommendations in check order, the
      direct answer exactly when that score is below 50 and the FAQ exactly
      when that score is below 60; so its quick fix inserts at most those
      two, in that order. */
  lemma RealAnalysisQuickFix<J>(site: Site, postId: int, e: Inputs<J>, m: AiSearchOptimizer.Matchers)
    requires e.analyze == RealAnalysis(m) && postId in site.posts
    ensures var a := FirstAnalysis(site, postId, e);
      a.Ok? && InCheckOrder(a.value.recommendations) &&
      (AiSearchOptimizer.DirectAnswerCat in a.value.recommendations <==> a.value.scores.directAnswer < 50) &&
      (AiSearchOptimizer.FaqCat in a.value.recommendations <==> a.value.scores.faqSection < 60)
  {
    var a := AiSearchOptimizer.Analyze(site, postId, AuthorBio(site, postId), m);
    assert FirstAnalysis(site, postId, e) == a;
    assert a.Ok? && a.value.recommendations == AiSearchOptimizer.Recommendations(a.value.scores);
    RecommendedFixes(a.value.scores);
  }

  /** Recommendations come in check order, the direct answer among them
      exactly below 50 and the FAQ exactly below 60. */
  lemma RecommendedFixes(s: AiSearchOptimizer.Scores)
    ensures var recs := AiSearchOptimizer.Recommendations(s);
      InCheckOrder(recs) &&
      (AiSearchOptimizer.DirectAnswerCat in recs <==> s.directAnswer < 50) &&
      (AiSearchOptimizer.FaqCat in recs <==> s.faqSection < 60)
  {
    assert AiSearchOptimizer.ScoreOf(s, AiSearchOptimizer.DirectAnswerCat) == s.directAnswer;
    assert AiSearchOptimizer.ScoreOf(s, AiSearchOptimizer.FaqCat) == s.faqSection;
  }

  // ---------------------------------------------------------------- statistics

  /** How many stored scores fall in each band, and their total. */
  datatype Tally = Tally(total: int, excellent: nat, good: nat, needsWork: nat, poor: nat)

  function Plus(a: Tally, b: Tally): Tally {
    Tally(a.total + b.total, a.excellent + b.excellent, a.good + b.good, a.needsWork + b.needsWork, a.poor + b.poor)
  }

  /** One score: 80 and up excellent, 60-79 good, 40-59 needs work, below 40
      poor. */
  function Band(score: int): (t: Tally)
    ensures t.total == score && t.excellent + t.good + t.needsWork + t.poor == 1
    ensures t.excellent == 1 <==> score >= 80
    ensures t.good == 1 <==> 60 <= score < 80
    ensures t.needsWork == 1 <==> 40 <= score < 60
    ensures t.poor == 1 <==> score < 40
  {
    if score >= 80 then Tally(score, 1, 0, 0, 0)
    else if score >= 60 then Tally(score, 0, 1, 0, 0)
    else if score >= 40 then Tally(score, 0, 0, 1, 0)
    else Tally(score, 0, 0, 0, 1)
  }

  /** The stored scores, each read with PHP's `(int)`. */
  function ScoresOf(rows: seq<string>): (r: seq<int>)
    ensures |r| == |rows| && forall i :: 0 <= i < |rows| ==> r[i] == Settings.StringToInt(rows[i])
  {
    seq(|rows|, i requires 0 <= i < |rows| => Settings.StringToInt(rows[i]))
  }

  /** The loop of `get_optimization_stats` over the scores. */
  function TallyScores(scores: seq<int>): Tally {
    if |scores| == 0 then Tally(0, 0, 0, 0, 0)
    else Plus(TallyScores(scores[..|scores| - 1]), Band(scores[|scores| - 1]))
  }

  /** Every score lands in exactly one band. */
  lemma {:induction false} TallyCount(scores: seq<int>)
    ensures var t := TallyScores(scores); t.excellent + t.good + t.needsWork + t.poor == |scores|
  {
    if |scores| > 0 {
      TallyCount(scores[..|scores| - 1]);
    }
  }

  /** The tally of two batches of scores is the sum of their tallies, so the
      order the database returns the rows in does not matter. */
  lemma {:induction false} TallyAppend(a: seq<int>, b: seq<int>)
    ensures TallyScores(a + b) == Plus(TallyScores(a), TallyScores(b))
  {
    if |b| > 0 {
      var b' := b[..|b| - 1];
      var x := Band(b[|b| - 1]);
      assert (a + b)[..|a + b| - 1] == a + b';
      assert (a + b)[|a + b| - 1] == b[|b| - 1];
      TallyAppend(a, b');
      assert TallyScores(a + b) == Plus(TallyScores(a + b'), x);
      assert TallyScores(b) == Plus(TallyScores(b'), x);
    } else {
      assert a + b == a;
    }
  }

  lemma TallyOrderFree(a: seq<string>, b: seq<string>)
    ensures TallyScores(ScoresOf(a + b)) == TallyScores(ScoresOf(b + a))
  {
    assert ScoresOf(a + b) == ScoresOf(a) + ScoresOf(b);
    assert ScoresOf(b + a) == ScoresOf(b) + ScoresOf(a);
    TallyAppend(ScoresOf(a), ScoresOf(b));
    TallyAppend(ScoresOf(b), ScoresOf(a));
  }

  /** Scores within 0-100 total within 0-100 per score. */
  lemma {:induction false} TallyBounds(scores: seq<int>)
    requires forall i :: 0 <= i < |scores| ==> 0 <= scores[i] <= 100
    ensures 0 <= TallyScores(scores).total <= 100 * |scores|
  {
    if |scores| > 0 {
      TallyBounds(scores[..|scores| - 1]);
    }
  }

  datatype Stats = Stats(totalPosts: int, optimizedPosts: nat, averageScore: int, distribution: Tally)

  /** `get_optimization_stats()`: `rows` are the values of every stored
      AI-search score meta row and `published` the count of published posts.
      The average is rounded half away from zero, as PHP's `round`. */
  function OptimizationStats(rows: seq<string>, published: int): (r: Stats)
    ensures r.totalPosts == published && r.optimizedPosts == |rows|
    ensures var d := r.distribution;
      d.excellent + d.good + d.needsWork + d.poor == r.optimizedPosts
    ensures |rows| == 0 ==> r.averageScore == 0 && r.distribution == Tally(0, 0, 0, 0, 0)
    ensures |rows| > 0 ==>
      2 * (r.distribution.total - r.averageScore * |rows|) <= |rows| &&
      2 * (r.averageScore * |rows| - r.distribution.total) <= |rows|
    ensures |rows| > 0 && r.distribution.total >= 0 ==>
      2 * (r.distribution.total - r.averageScore * |rows|) < |rows|
    ensures |rows| > 0 && r.distribution.total < 0 ==>
      2 * (r.averageScore * |rows| - r.distribution.total) < |rows|
  {
    var t := TallyScores(ScoresOf(rows));
    TallyCount(ScoresOf(rows));
    Stats(published, |rows|, if |rows| == 0 then 0 else RoundDiv(t.total, |rows|), t)
  }

  /** Scores stored by the fixer within 0-100 average within 0-100. */
  lemma AverageInRange(rows: seq<string>, published: int)
    requires forall i :: 0 <= i < |rows| ==> 0 <= Settings.StringToInt(rows[i]) <= 100
    ensures 0 <= OptimizationStats(rows, published).averageScore <= 100
  {
    TallyBounds(ScoresOf(rows));
    var n := |rows|;
    if n > 0 {
      RoundedInRange(TallyScores(ScoresOf(rows)).total, n, OptimizationStats(rows, published).averageScore);
    }
  }

  /** A total of `n` values in 0-100, divided by `n` and rounded, is in
      0-100. */
  lemma RoundedInRange(t: int, n: int, a: int)
    requires n > 0 && 0 <= t <= 100 * n
    requires 2 * (t - a * n) <= n && 2 * (a * n - t) <= n
    ensures 0 <= a <= 100
  {
    MulSign(a + 1, n);
    MulSign(a - 101, n);
    assert (a + 1) * n == a * n + n;
    assert (a - 101) * n == a * n - 101 * n;
  }

  lemma MulSign(x: int, n: int)
    requires n > 0
    ensures x <= 0 ==> x * n <= 0
    ensures x >= 0 ==> x * n >= 0
  {
  }

  // ---------------------------------------------------------------- candidates

  /** A post `find_posts_needing_optimization` lists. */
  datatype Candidate = Candidate(postId: int, title: string, currentScore: string, lastOptimized: string)

  /** Never scored (an empty or "0" meta value) or scored below the
      threshold. */
  predicate NeedsOptimization(score: string, threshold: int) {
    PhpEmpty(score) || Settings.StringToInt(score) < threshold
  }

  function CandidateOf(site: Site, id: int): (c: Candidate)
    ensures c.postId == id
  {
    var score := GetMeta(site, id, ScoreKey);
    Candidate(id, if id in site.posts then site.posts[id].title else "",
      if PhpEmpty(score) then "0" else score, GetMeta(site, id, OptimizedKey))
  }

  /** The published posts that need optimising, in order. */
  function NeedingIds(site: Site, published: seq<int>, threshold: int): (r: seq<int>)
    ensures |r| <= |published|
  {
    if |published| == 0 then []
    else
      var rest := NeedingIds(site, published[1..], threshold);
      if NeedsOptimization(GetMeta(site, published[0], ScoreKey), threshold) then [published[0]] + rest else rest
  }

  /** A published post is kept exactly when it needs optimising. */
  lemma {:induction false} NeedingIdsExactly(site: Site, published: seq<int>, threshold: int, id: int)
    ensures id in NeedingIds(site, published, threshold) <==>
      id in published && NeedsOptimization(GetMeta(site, id, ScoreKey), threshold)
  {
    if |published| > 0 {
      NeedingIdsExactly(site, published[1..], threshold, id);
      assert id in published <==> id == published[0] || id in published[1..];
    }
  }

  /** The test a published post passes to be listed. */
  function Needs(site: Site, threshold: int): int -> bool {
    id => NeedsOptimization(GetMeta(site, id, ScoreKey), threshold)
  }

  /** The listed posts are the published ones that pass the test, in order. */
  lemma {:induction false} NeedingIdsFilter(site: Site, published: seq<int>, threshold: int)
    ensures NeedingIds(site, published, threshold) == Sorting.Filter(published, Needs(site, threshold))
  {
    if |published| > 0 {
      NeedingIdsFilter(site, published[1..], threshold);
    }
  }

  /** `find_posts_needing_optimization($threshold)`: `published` is every
      published post in the order `get_posts` returns them; those that need
      optimising are listed, in that order, with their title, score ("0" when
      never scored) and last optimisation time. */
  function FindPostsNeedingOptimization(site: Site, published: seq<int>, threshold: int): (r: seq<Candidate>)
    ensures |r| <= |published|
    ensures forall k :: 0 <= k < |r| ==> r[k] == CandidateOf(site, r[k].postId)
  {
    var ids := NeedingIds(site, published, threshold);
    seq(|ids|, k requires 0 <= k < |ids| => CandidateOf(site, ids[k]))
  }

  /** A published post is listed exactly when it needs optimising. */
  lemma CandidatesExactly(site: Site, published: seq<int>, threshold: int, id: int)
    ensures (exists k :: 0 <= k < |FindPostsNeedingOptimization(site, published, threshold)| &&
               FindPostsNeedingOptimization(site, published, threshold)[k].postId == id) <==>
            id in published && NeedsOptimization(GetMeta(site, id, ScoreKey), threshold)
  {
    var ids := NeedingIds(site, published, threshold);
    var r := FindPostsNeedingOptimization(site, published, threshold);
    NeedingIdsExactly(site, published, threshold, id);
    assert forall k :: 0 <= k < |r| ==> r[k].postId == ids[k];
    if id in ids {
      var k :| 0 <= k < |ids| && ids[k] == id;
      assert r[k].postId == id;
    }
  }

  /** A post whose stored score is set and reaches the threshold is not
      listed. LogOptimization leaves such a score after a run with a stored,
      non-zero after score at or above the threshold. */
  lemma ScoredPostNotListed(s: Site, published: seq<int>, threshold: int, id: int)
    requires !PhpEmpty(GetMeta(s, id, ScoreKey)) && Settings.StringToInt(GetMeta(s, id, ScoreKey)) >= threshold
    ensures forall k :: 0 <= k < |FindPostsNeedingOptimization(s, published, threshold)| ==>
      FindPostsNeedingOptimization(s, published, threshold)[k].postId != id
  {
    CandidatesExactly(s, published, threshold, id);
  }
}
