/** Readiness of a post for AI search engines
    (`modules/intelligence/class-ai-search-optimizer.php`): eight checks, each
    scored from 0 to 100, a weighted overall score and prioritised
    recommendations. Tag stripping, `str_word_count` and the regular
    expressions whose languages are not modelled are observations handed in
    through `Matchers`; substring tests, character counts and the year pattern
    are computed. */
module AiSearchOptimizer {
  import opened Common
  import opened Text
  import opened Sorting
  import opened WordPress
  import Settings

  /** A check's outcome: its score and the issues it raised, in order. */
  datatype Check = Check(score: int, issues: seq<string>)

  /** `max(0, min(100, x))`. */
  function Clamp(x: int): (r: int)
    ensures 0 <= r <= 100
    ensures 0 <= x <= 100 ==> r == x
  {
    if x < 0 then 0 else if x > 100 then 100 else x
  }

  /** The observations the checks take from WordPress and from regular
      expressions. */
  datatype Matchers = Matchers(
    strip: string -> string,            // wp_strip_all_tags
    words: string -> nat,               // str_word_count
    answerStart: string -> bool,        // one of the three answer patterns matches
    fluffStart: string -> bool,         // the fluff pattern matches
    faqHeading: string -> bool,         // an H2/H3 naming FAQ, Q&A, ...
    questionMarkers: string -> nat,     // matches of the three question patterns, summed
    externalLinks: string -> nat,       // anchors with an http(s) href
    statistics: string -> bool,         // a percentage or "<n> users/people/..."
    linkDomains: string -> seq<string>, // host part of every http(s) anchor
    h2: string -> nat,
    lists: string -> nat,
    tables: string -> nat,
    you: string -> nat,                 // whole-word "you", any case
    properNouns: string -> nat)         // runs of capitalised words

  // ---------------------------------------------------------------- direct answer

  /** `substr($text, 0, strpos($text, "\n\n") ?: 300)`: the text up to its
      first blank line, or its first 300 characters when it has none -- and
      also when it starts with one, since position 0 is falsy. */
  function FirstParagraph(text: string): (r: string)
    ensures IndexOf(text, "\n\n") > 0 ==>
      |r| == IndexOf(text, "\n\n") && r == text[..|r|] &&
      forall i :: 0 <= i && i + 2 <= |r| ==> !OccursAt(r, "\n\n", i)
    ensures IndexOf(text, "\n\n") <= 0 ==> r == text[..if |text| < 300 then |text| else 300]
  {
    var k := IndexOf(text, "\n\n");
    if k > 0 then
      var r := text[..k];
      forall i | 0 <= i && i + 2 <= |r| ensures !OccursAt(r, "\n\n", i) {
        assert r[i..i + 2] == text[i..i + 2];
        assert !OccursAt(text, "\n\n", i);
      }
      r
    else text[..if |text| < 300 then |text| else 300]
  }

  const ShortParagraphIssue := "First paragraph too short (less than 50 characters)"
  const FluffIssue := "Content starts with fluff instead of direct answer"
  const LongParagraphIssue := "First paragraph too long (over 80 words) - AI prefers concise answers"

  datatype DirectAnswer = DirectAnswer(check: Check, hasDirectAnswer: bool, firstParagraphWords: nat)

  /** `check_direct_answer($content)` on the stripped text: 30 for a first
      paragraph of 50 characters or more, 20 for an answer-like opening, -30
      for a fluffy one, 50 for 40 to 80 words. */
  function CheckDirectAnswer(text: string, m: Matchers): (r: DirectAnswer)
    ensures 0 <= r.check.score <= 100
    ensures r.hasDirectAnswer <==> r.check.score >= 50
    ensures r.firstParagraphWords == m.words(FirstParagraph(text))
    ensures r.check.score >= 50 ==>
      40 <= r.firstParagraphWords <= 80 ||
      (|FirstParagraph(text)| >= 50 && m.answerStart(FirstParagraph(text)) && !m.fluffStart(FirstParagraph(text)))
    ensures r.check.score == 100 <==>
      |FirstParagraph(text)| >= 50 && m.answerStart(FirstParagraph(text)) &&
      !m.fluffStart(FirstParagraph(text)) && 40 <= r.firstParagraphWords <= 80
    ensures m.fluffStart(FirstParagraph(text)) ==> r.check.score <= 70
    ensures ShortParagraphIssue in r.check.issues <==> |FirstParagraph(text)| < 50
    ensures FluffIssue in r.check.issues <==> m.fluffStart(FirstParagraph(text))
    ensures LongParagraphIssue in r.check.issues <==> r.firstParagraphWords > 80
  {
    var p := FirstParagraph(text);
    var n := m.words(p);
    var raw := (if |p| < 50 then 0 else 30) + (if m.answerStart(p) then 20 else 0)
      - (if m.fluffStart(p) then 30 else 0) + (if 40 <= n <= 80 then 50 else 0);
    var issues := (if |p| < 50 then [ShortParagraphIssue] else [])
      + (if m.fluffStart(p) then [FluffIssue] else [])
      + (if n > 80 then [LongParagraphIssue] else []);
    DirectAnswer(Check(Clamp(raw), issues), raw >= 50, n)
  }

  // ---------------------------------------------------------------- FAQ section

  const NoFaqHeadingIssue := "No FAQ section heading found"

  /** `check_faq_section($content)`: 40 for an FAQ heading, then 60 for five
      question markers or more, 30 for three or four. */
  function CheckFaqSection(hasHeading: bool, questions: nat): (r: Check)
    ensures 0 <= r.score <= 100
    ensures r.score >= 60 <==> questions >= 5 || (hasHeading && questions >= 3)
    ensures r.score == 100 <==> hasHeading && questions >= 5
    ensures NoFaqHeadingIssue in r.issues <==> !hasHeading
    ensures |r.issues| == (if hasHeading then 0 else 1) + (if questions >= 5 then 0 else 1)
  {
    var count := Settings.DecimalString(questions);
    var (bonus, issue) :=
      if questions >= 5 then (60, [])
      else if questions >= 3 then (30, ["Only " + count + " questions found - aim for 5+"])
      else (0, ["Insufficient FAQ content (found " + count + " questions)"]);
    assert NoFaqHeadingIssue !in issue;
    Check(Clamp((if hasHeading then 40 else 0) + bonus), (if hasHeading then [] else [NoFaqHeadingIssue]) + issue)
  }

  // ---------------------------------------------------------------- structured data

  const FaqSchemaKey := "sap_faq_schema"
  const HowToSchemaKey := "sap_howto_schema"

  const NoFaqSchemaIssue := "No FAQ schema markup"
  const NoArticleSchemaIssue := "No Article schema markup"
  const NoHowToSchemaIssue := "Title suggests HowTo but no HowTo schema found"

  datatype StructuredData = StructuredData(check: Check, schemasFound: seq<string>)

  /** `check_structured_data($post_id)`: 35 each for stored FAQ and Article
      schema, 30 for HowTo schema when the title mentions "how to". */
  function CheckStructuredData(site: Site, postId: int, title: string): (r: StructuredData)
    ensures 0 <= r.check.score <= 100
    ensures r.check.score >= 70 <==> !PhpEmpty(GetMeta(site, postId, FaqSchemaKey)) && !PhpEmpty(GetMeta(site, postId, SchemaKey))
    ensures "FAQ" in r.schemasFound <==> !PhpEmpty(GetMeta(site, postId, FaqSchemaKey))
    ensures "Article" in r.schemasFound <==> !PhpEmpty(GetMeta(site, postId, SchemaKey))
    ensures "HowTo" in r.schemasFound <==> ContainsNoCase(title, "how to") && !PhpEmpty(GetMeta(site, postId, HowToSchemaKey))
    ensures NoHowToSchemaIssue in r.check.issues ==> ContainsNoCase(title, "how to")
    ensures r.check.score == 35 * |r.schemasFound| - (if "HowTo" in r.schemasFound then 5 else 0)
  {
    var faq := !PhpEmpty(GetMeta(site, postId, FaqSchemaKey));
    var article := !PhpEmpty(GetMeta(site, postId, SchemaKey));
    var howToTitle := ContainsNoCase(title, "how to");
    var howTo := howToTitle && !PhpEmpty(GetMeta(site, postId, HowToSchemaKey));
    var found := (if faq then ["FAQ"] else []) + (if article then ["Article"] else []) + (if howTo then ["HowTo"] else []);
    var issues := (if faq then [] else [NoFaqSchemaIssue]) + (if article then [] else [NoArticleSchemaIssue])
      + (if howToTitle && !howTo then [NoHowToSchemaIssue] else []);
    StructuredData(Check(Clamp((if faq then 35 else 0) + (if article then 35 else 0) + (if howTo then 30 else 0)), issues), found)
  }

  // ---------------------------------------------------------------- E-E-A-T

  const ExpertiseKeywords: seq<string> :=
    ["certified", "expert", "professional", "years of experience", "research", "study", "tested", "analyzed"]

  /** How many of the expertise keywords the content mentions, in any case. */
  function ExpertiseCount(content: string): (r: nat)
    ensures r <= |ExpertiseKeywords|
  {
    |Filter(ExpertiseKeywords, (k: string) => ContainsNoCase(content, k))|
  }

  /** `check_eeat_signals($post_id, $content)`: 20 for an author bio longer
      than 100 characters, 10 when the post was modified after publication,
      25 for three external links, 25 for two expertise keywords, 20 for
      statistics. */
  function CheckEeatSignals(authorBio: string, published: int, modified: int, content: string, m: Matchers): (r: Check)
    ensures 0 <= r.score <= 100
    ensures r.score == 100 <==>
      |authorBio| > 100 && modified > published && m.externalLinks(content) >= 3 &&
      ExpertiseCount(content) >= 2 && m.statistics(content)
    ensures r.score >= 60 ==> m.externalLinks(content) >= 3 || ExpertiseCount(content) >= 2
    ensures |r.issues| == (if |authorBio| > 100 then 0 else 1) + (if m.externalLinks(content) >= 3 then 0 else 1)
      + (if ExpertiseCount(content) >= 2 then 0 else 1) + (if m.statistics(content) then 0 else 1)
  {
    var bio := !PhpEmpty(authorBio) && |authorBio| > 100;
    var links := m.externalLinks(content);
    var expert := ExpertiseCount(content) >= 2;
    var stats := m.statistics(content);
    var score := (if bio then 20 else 0) + (if modified > published then 10 else 0)
      + (if links >= 3 then 25 else 0) + (if expert then 25 else 0) + (if stats then 20 else 0);
    assert 0 <= score <= 100;
    Check(score, EeatIssues(bio, links, expert, stats))
  }

  function EeatIssues(bio: bool, links: nat, expert: bool, stats: bool): (r: seq<string>)
    ensures |r| == (if bio then 0 else 1) + (if links >= 3 then 0 else 1) + (if expert then 0 else 1) + (if stats then 0 else 1)
  {
    (if bio then [] else ["No comprehensive author bio (needs 100+ characters)"])
    + (if links >= 3 then [] else ["Few external citations (found " + Settings.DecimalString(links) + ", need 3+)"])
    + (if expert then [] else ["Lack of expertise/credential signals"])
    + (if stats then [] else ["No statistics or data points"])
  }

  // ---------------------------------------------------------------- depth

  /** `check_content_depth($content)`: 40 for 1500 words or 25 for 800, 30 for
      four H2 headings or 15 for two, 15 for two lists, 15 for a table. */
  function CheckContentDepth(words: nat, h2: nat, lists: nat, tables: nat): (r: Check)
    ensures 0 <= r.score <= 100
    ensures r.score == 100 <==> words >= 1500 && h2 >= 4 && lists >= 2 && tables >= 1
    ensures words < 800 && h2 < 2 ==> r.score <= 30
    ensures |r.issues| == (if words >= 800 then 0 else 1) + (if h2 >= 2 then 0 else 1) + (if lists >= 2 then 0 else 1)
  {
    var score := (if words >= 1500 then 40 else if words >= 800 then 25 else 0)
      + (if h2 >= 4 then 30 else if h2 >= 2 then 15 else 0)
      + (if lists >= 2 then 15 else 0) + (if tables >= 1 then 15 else 0);
    var issues := (if words >= 800 then [] else ["Content too short for comprehensive coverage (current: " + Settings.DecimalString(words) + " words)"])
      + (if h2 >= 2 then [] else ["Insufficient content structure (need 4+ H2 headings)"])
      + (if lists >= 2 then [] else ["Add more lists for scannable content"]);
    Check(Clamp(score), issues)
  }

  // ---------------------------------------------------------------- citations

  const AuthoritativeDomains: seq<string> :=
    ["wikipedia.org", "edu", "gov", ".gov", "nih.gov", "cdc.gov", "nature.com", "sciencedirect.com", "pubmed", "scholar.google"]

  /** A link host containing one of the authoritative fragments, in any case
      (so "education.com" counts, as "edu" is a substring of it). */
  predicate Authoritative(domain: string) {
    exists i :: 0 <= i < |AuthoritativeDomains| && ContainsNoCase(domain, AuthoritativeDomains[i])
  }

  /** `20(1[5-9]|2[0-5])` at position `i`: a year from 2015 to 2025. */
  predicate YearAt(s: string, i: int) {
    0 <= i && i + 4 <= |s| && s[i] == '2' && s[i + 1] == '0' &&
    ((s[i + 2] == '1' && '5' <= s[i + 3] <= '9') || (s[i + 2] == '2' && '0' <= s[i + 3] <= '5'))
  }

  predicate MentionsRecentYear(s: string) {
    exists i :: 0 <= i < |s| && YearAt(s, i)
  }

  datatype Citations = Citations(check: Check, citationCount: nat, authoritativeCount: nat)

  /** `check_citations($content)`: 60 for three authoritative link hosts or
      30 for one, 40 for a year from 2015 to 2025 anywhere in the content. */
  function CheckCitations(content: string, domains: seq<string>): (r: Citations)
    ensures 0 <= r.check.score <= 100
    ensures r.citationCount == |domains|
    ensures r.authoritativeCount <= r.citationCount
    ensures r.authoritativeCount == |Filter(domains, Authoritative)|
    ensures r.check.score >= 50 <==> r.authoritativeCount >= 3 || (MentionsRecentYear(content) && r.authoritativeCount >= 1)
    ensures r.check.score == 100 <==> MentionsRecentYear(content) && r.authoritativeCount >= 3
  {
    var auth := |Filter(domains, Authoritative)|;
    var dated := MentionsRecentYear(content);
    var score := (if auth >= 3 then 60 else if auth >= 1 then 30 else 0) + (if dated then 40 else 0);
    var issues := (if auth >= 3 then []
      else if auth >= 1 then ["Add more authoritative sources (found " + Settings.DecimalString(auth) + ", need 3+)"]
      else ["No authoritative citations (.edu, .gov, research sites)"])
      + (if dated then [] else ["Citations should include dates for credibility"]);
    Citations(Check(Clamp(score), issues), |domains|, auth)
  }

  // ---------------------------------------------------------------- tone

  /** `substr_count($text, $c)` for one character. */
  function CountChar(s: string, cs: set<char>): (r: nat)
    ensures r <= |s|
  {
    if |s| == 0 then 0 else (if s[0] in cs then 1 else 0) + CountChar(s[1..], cs)
  }

  const FormalWords: seq<string> := ["furthermore", "henceforth", "therefore", "thus", "wherein"]

  function FormalCount(text: string): (r: nat)
    ensures r <= |FormalWords|
  {
    |Filter(FormalWords, (w: string) => ContainsNoCase(text, w))|
  }

  const FewQuestionsIssue := "Use more questions to match conversational search queries"

  /** At least 5% of the sentence terminators are question marks (against at
      least one sentence). */
  predicate Questioning(text: string) {
    var sentences := CountChar(text, {'.', '!', '?'});
    CountChar(text, {'?'}) as real / (if sentences < 1 then 1 else sentences) as real >= 0.05
  }

  datatype Tone = Tone(check: Check, questionCount: nat)

  /** `check_conversational_tone($content)` on the stripped text: 50, plus 30
      for questioning, plus 20 for five "you", minus 10 per formal word. */
  function CheckConversationalTone(text: string, you: nat): (r: Tone)
    ensures 0 <= r.check.score <= 100
    ensures r.questionCount == CountChar(text, {'?'})
    ensures FewQuestionsIssue in r.check.issues <==> !Questioning(text)
    ensures FormalCount(text) == 0 ==> r.check.score >= 50
    ensures r.check.score > 70 ==> Questioning(text)
    ensures r.check.score == 100 <==> Questioning(text) && you >= 5 && FormalCount(text) == 0
  {
    var q := CountChar(text, {'?'});
    var s := CountChar(text, {'.', '!', '?'});
    var denominator := if s < 1 then 1 else s;
    RatioThreshold(q, denominator);
    var asks := 20 * q >= denominator;
    var score := 50 + (if asks then 30 else 0) + (if you >= 5 then 20 else 0) - 10 * FormalCount(text);
    Tone(Check(Clamp(score), if asks then [] else [FewQuestionsIssue]), q)
  }

  lemma RatioThreshold(q: nat, n: nat)
    requires n > 0
    ensures q as real / n as real >= 0.05 <==> 20 * q >= n
  {
    var ratio := q as real / n as real;
    assert ratio * n as real == q as real;
  }

  // ---------------------------------------------------------------- entities

  /** `check_entity_optimization($content)`: 50, plus 50 for ten proper
      nouns or 25 for five. */
  function CheckEntityOptimization(properNouns: nat): (r: Check)
    ensures 50 <= r.score <= 100
    ensures r.score == 100 <==> properNouns >= 10
    ensures |r.issues| == 1 <==> properNouns < 5
  {
    var score := 50 + (if properNouns >= 10 then 50 else if properNouns >= 5 then 25 else 0);
    Check(Clamp(score), if properNouns >= 5 then [] else ["Use more specific entities (names, brands, places)"])
  }

  // ---------------------------------------------------------------- overall

  datatype Scores = Scores(
    directAnswer: int, faqSection: int, structuredData: int, eeatSignals: int,
    contentDepth: int, citations: int, conversationalTone: int, entityOptimization: int)

  predicate InRange(s: Scores) {
    0 <= s.directAnswer <= 100 && 0 <= s.faqSection <= 100 && 0 <= s.structuredData <= 100 &&
    0 <= s.eeatSignals <= 100 && 0 <= s.contentDepth <= 100 && 0 <= s.citations <= 100 &&
    0 <= s.conversationalTone <= 100 && 0 <= s.entityOptimization <= 100
  }

  /** The weights, in the order of `Scores`. */
  const Weights: seq<int> := [20, 15, 15, 15, 15, 10, 5, 5]

  function AsList(s: Scores): seq<int> {
    [s.directAnswer, s.faqSection, s.structuredData, s.eeatSignals,
     s.contentDepth, s.citations, s.conversationalTone, s.entityOptimization]
  }

  function Sum(xs: seq<int>): int {
    if |xs| == 0 then 0 else xs[0] + Sum(xs[1..])
  }

  /** Σ weight × score. */
  function Dot(ws: seq<int>, xs: seq<int>): int
    requires |ws| == |xs|
  {
    if |ws| == 0 then 0 else ws[0] * xs[0] + Dot(ws[1..], xs[1..])
  }

  /** The weights make up exactly 100. */
  lemma WeightsSumTo100()
    ensures Sum(Weights) == 100
  {
    assert Weights[1..][1..][1..][1..][1..][1..][1..][1..] == [];
  }

  /** With non-negative weights, scores bounded by `lo` and `hi` give a
      weighted sum bounded by `lo` and `hi` times the total weight. */
  lemma {:induction false} DotBounds(ws: seq<int>, xs: seq<int>, lo: int, hi: int)
    requires |ws| == |xs|
    requires forall i :: 0 <= i < |ws| ==> ws[i] >= 0 && lo <= xs[i] <= hi
    ensures lo * Sum(ws) <= Dot(ws, xs) <= hi * Sum(ws)
  {
    if |ws| > 0 {
      DotBounds(ws[1..], xs[1..], lo, hi);
      DotStep(lo, hi, ws[0], xs[0], Sum(ws[1..]), Dot(ws[1..], xs[1..]));
    }
  }

  /** One more weighted score keeps the weighted sum within the bounds. */
  lemma DotStep(lo: int, hi: int, w: int, x: int, s: int, d: int)
    requires w >= 0 && lo <= x <= hi && lo * s <= d <= hi * s
    ensures lo * (w + s) <= w * x + d <= hi * (w + s)
  {
    FactorOrder(lo, x, w);
    FactorOrder(x, hi, w);
    assert lo * (w + s) == lo * w + lo * s;
    assert hi * (w + s) == hi * w + hi * s;
  }

  /** Raising any score never lowers the weighted sum. */
  lemma {:induction false} DotMonotone(ws: seq<int>, xs: seq<int>, ys: seq<int>)
    requires |ws| == |xs| == |ys|
    requires forall i :: 0 <= i < |ws| ==> ws[i] >= 0 && xs[i] <= ys[i]
    ensures Dot(ws, xs) <= Dot(ws, ys)
  {
    if |ws| > 0 {
      DotMonotone(ws[1..], xs[1..], ys[1..]);
      FactorOrder(xs[0], ys[0], ws[0]);
    }
  }

  lemma FactorOrder(x: int, y: int, w: int)
    requires x <= y && w >= 0
    ensures x * w <= y * w
  {
    assert y * w - x * w == (y - x) * w;
  }

  /** `round(Σ (score / 100) × weight)`: the weighted mean rounded to the
      nearest integer, computed exactly. */
  function Overall(s: Scores): (r: int)
    ensures InRange(s) ==> 0 <= r <= 100
  {
    var total := Dot(Weights, AsList(s));
    if InRange(s) then DotBounds(Weights, AsList(s), 0, 100); WeightsSumTo100(); RoundDiv(total, 100)
    else RoundDiv(total, 100)
  }

  /** Rounding the sum over 100 keeps the order of the sums. */
  lemma RoundDivMonotone(a: int, b: int)
    requires a <= b
    ensures RoundDiv(a, 100) <= RoundDiv(b, 100)
  {
  }

  /** The overall score never drops when any sub-score rises. */
  lemma OverallMonotone(s: Scores, t: Scores)
    requires forall i :: 0 <= i < 8 ==> AsList(s)[i] <= AsList(t)[i]
    ensures Overall(s) <= Overall(t)
  {
    DotMonotone(Weights, AsList(s), AsList(t));
    RoundDivMonotone(Dot(Weights, AsList(s)), Dot(Weights, AsList(t)));
  }

  /** A post that scores the same on every check scores that overall. */
  lemma OverallOfUniform(c: int)
    requires 0 <= c <= 100
    ensures Overall(Scores(c, c, c, c, c, c, c, c)) == c
  {
    var s := Scores(c, c, c, c, c, c, c, c);
    DotBounds(Weights, AsList(s), c, c);
    WeightsSumTo100();
  }

  // ---------------------------------------------------------------- recommendations

  /** What a recommendation is about. */
  datatype Category = DirectAnswerCat | FaqCat | SchemaCat | EeatCat | DepthCat | CitationsCat

  datatype Priority = High | Medium

  /** Where a category stands in the order of the checks. */
  function Rank(c: Category): int {
    match c
    case DirectAnswerCat => 0
    case FaqCat => 1
    case SchemaCat => 2
    case EeatCat => 3
    case DepthCat => 4
    case CitationsCat => 5
  }

  function Later(c: Category): int {
    -Rank(c)
  }

  const Order: seq<Category> := [DirectAnswerCat, FaqCat, SchemaCat, EeatCat, DepthCat, CitationsCat]

  /** The first three checks are high priority, the other three medium. */
  function PriorityOf(c: Category): Priority {
    if Rank(c) < 3 then High else Medium
  }

  /** The score a category answers. */
  function ScoreOf(s: Scores, c: Category): int {
    match c
    case DirectAnswerCat => s.directAnswer
    case FaqCat => s.faqSection
    case SchemaCat => s.structuredData
    case EeatCat => s.eeatSignals
    case DepthCat => s.contentDepth
    case CitationsCat => s.citations
  }

  /** The bar below which a category is recommended. */
  function Threshold(c: Category): int {
    match c
    case DirectAnswerCat => 50
    case FaqCat => 60
    case SchemaCat => 70
    case EeatCat => 60
    case DepthCat => 60
    case CitationsCat => 50
  }

  lemma OrderFacts()
    ensures Distinct(Order)
    ensures SortedDesc(Order, Later)
    ensures forall c :: c in Order
  {
    assert forall i :: 0 <= i < 6 ==> Rank(Order[i]) == i;
    forall c ensures c in Order {
      assert Order[Rank(c)] == c;
    }
  }

  datatype Recommendation = Recommendation(priority: Priority, category: string, title: string, description: string, action: string)

  /** The recommendation the source emits for a category. */
  function Describe(c: Category): Recommendation {
    match c
    case DirectAnswerCat => Recommendation(PriorityOf(c), "direct_answer", "Add Direct Answer at Start",
      "Start your content with a clear, concise answer (40-80 words) before expanding.", "add_direct_answer")
    case FaqCat => Recommendation(PriorityOf(c), "faq", "Add Comprehensive FAQ Section",
      "Include at least 5-10 common questions with direct answers.", "generate_faq")
    case SchemaCat => Recommendation(PriorityOf(c), "schema", "Implement Schema Markup",
      "Add FAQ schema, Article schema, and HowTo schema where applicable.", "add_schema")
    case EeatCat => Recommendation(PriorityOf(c), "eeat", "Strengthen E-E-A-T Signals",
      "Add author credentials, cite authoritative sources, include statistics with dates.", "enhance_eeat")
    case DepthCat => Recommendation(PriorityOf(c), "depth", "Expand Content Depth",
      "Add more comprehensive coverage with examples, lists, and comparisons.", "expand_content")
    case CitationsCat => Recommendation(PriorityOf(c), "citations", "Add Authoritative Citations",
      "Link to .edu, .gov, and research sources to build credibility.", "add_citations")
  }

  /** `generate_recommendations($score)`: the categories whose score is
      below its bar, in check order; `Describe` gives each one's text. */
  function Recommendations(s: Scores): (r: seq<Category>)
    ensures forall c :: c in r <==> ScoreOf(s, c) < Threshold(c)
    ensures forall i, j :: 0 <= i < j < |r| ==> Rank(r[i]) < Rank(r[j])
  {
    var keep := (c: Category) => ScoreOf(s, c) < Threshold(c);
    var r := Filter(Order, keep);
    OrderFacts();
    FilterSorted(Order, keep, Later);
    FilterDistinct(Order, keep);
    forall c ensures c in r <==> keep(c) {
      FilterMember(Order, keep, c);
    }
    r
  }

  /** The bars of the six recommendations, and every high-priority one before
      every medium one. */
  lemma RecommendationBars(s: Scores)
    ensures DirectAnswerCat in Recommendations(s) <==> s.directAnswer < 50
    ensures FaqCat in Recommendations(s) <==> s.faqSection < 60
    ensures SchemaCat in Recommendations(s) <==> s.structuredData < 70
    ensures EeatCat in Recommendations(s) <==> s.eeatSignals < 60
    ensures DepthCat in Recommendations(s) <==> s.contentDepth < 60
    ensures CitationsCat in Recommendations(s) <==> s.citations < 50
    ensures forall i, j :: 0 <= i < j < |Recommendations(s)| && PriorityOf(Recommendations(s)[i]) == Medium ==>
      PriorityOf(Recommendations(s)[j]) == Medium
  {
  }

  // ---------------------------------------------------------------- analysis

  /** The eight checks' detailed outcomes. */
  datatype Checks = Checks(
    directAnswer: DirectAnswer, faqSection: Check, faqCount: nat, structuredData: StructuredData,
    eeatSignals: Check, contentDepth: Check, h2Count: nat, citations: Citations, tone: Tone, entities: Check)

  function ScoresOf(c: Checks): Scores {
    Scores(c.directAnswer.check.score, c.faqSection.score, c.structuredData.check.score, c.eeatSignals.score,
      c.contentDepth.score, c.citations.check.score, c.tone.check.score, c.entities.score)
  }

  /** The checks run on one post. */
  function RunChecks(site: Site, postId: int, post: Post, authorBio: string, m: Matchers): (r: Checks)
    ensures InRange(ScoresOf(r))
    ensures ScoresOf(r).structuredData >= 70 <==>
      !PhpEmpty(GetMeta(site, postId, FaqSchemaKey)) && !PhpEmpty(GetMeta(site, postId, SchemaKey))
  {
    var content := post.content;
    var text := m.strip(content);
    var faqCount := m.questionMarkers(content);
    var da := CheckDirectAnswer(text, m);
    var faq := CheckFaqSection(m.faqHeading(content), faqCount);
    var sd := CheckStructuredData(site, postId, post.title);
    assert sd.check.score >= 70 <==> !PhpEmpty(GetMeta(site, postId, FaqSchemaKey)) && !PhpEmpty(GetMeta(site, postId, SchemaKey));
    var eeat := CheckEeatSignals(authorBio, post.publishedAt, post.modifiedAt, content, m);
    var depth := CheckContentDepth(m.words(text), m.h2(content), m.lists(content), m.tables(content));
    var cites := CheckCitations(content, m.linkDomains(content));
    var tone := CheckConversationalTone(text, m.you(text));
    var entities := CheckEntityOptimization(m.properNouns(text));
    Checks(da, faq, faqCount, sd, eeat, depth, m.h2(content), cites, tone, entities)
  }

  datatype Readiness = Readiness(overall: int, scores: Scores, checks: Checks, recommendations: seq<Category>)

  /** `analyze_ai_search_readiness($post_id)`; `authorBio` is the post
      author's description. */
  function Analyze(site: Site, postId: int, authorBio: string, m: Matchers): (r: Result<Readiness>)
    ensures postId !in site.posts <==> r == Err(PostNotFound)
    ensures r.Ok? ==> InRange(r.value.scores) && 0 <= r.value.overall <= 100
    ensures r.Ok? ==> r.value.overall == Overall(r.value.scores) && r.value.recommendations == Recommendations(r.value.scores)
    ensures r.Ok? ==> (r.value.scores.structuredData >= 70 <==>
      !PhpEmpty(GetMeta(site, postId, FaqSchemaKey)) && !PhpEmpty(GetMeta(site, postId, SchemaKey)))
  {
    match GetPost(site, postId)
    case None => Err(PostNotFound)
    case Some(post) =>
      var checks := RunChecks(site, postId, post, authorBio, m);
      var s := ScoresOf(checks);
      Ok(Readiness(Overall(s), s, checks, Recommendations(s)))
  }

  /** Only the FAQ schema and Article schema together lift a post clear of
      the schema recommendation. */
  lemma SchemaRecommendation(site: Site, postId: int, authorBio: string, m: Matchers)
    requires postId in site.posts
    ensures var r := Analyze(site, postId, authorBio, m).value;
      SchemaCat in r.recommendations <==>
        PhpEmpty(GetMeta(site, postId, FaqSchemaKey)) || PhpEmpty(GetMeta(site, postId, SchemaKey))
  {
    var r := Analyze(site, postId, authorBio, m);
    RecommendationBars(r.value.scores);
  }

  /** `bulk_analyze($post_ids)`: one analysis per distinct id. */
  function BulkAnalyze(site: Site, ids: seq<int>, authorOf: int -> string, m: Matchers): (r: map<int, Result<Readiness>>)
    ensures r.Keys == set id | id in ids
    ensures forall id :: id in r ==> (r[id].Err? <==> id !in site.posts)
  {
    KeyedResults(ids, (id: int) => Analyze(site, id, authorOf(id), m))
  }
}
