/** The site profiler: the deterministic parts of the profile it builds —
    publishing frequency, site age, content volume and average word count —
    and the fixed defaults it falls back to when the AI cannot describe the
    site. Dates are Unix timestamps; word counts and AI replies are inputs. */
module SiteProfiler {
  import opened Common
  import opened WordPress
  import AiAnalyzer

  const Day := 86400
  const Year := 365 * Day
  const Month := 30 * Day

  // ---------------------------------------------------------------- publishing frequency

  datatype Frequency = Daily | MultiplePerWeek | Weekly | Sporadic

  function Rank(f: Frequency): int {
    match f
    case Sporadic => 0
    case Weekly => 1
    case MultiplePerWeek => 2
    case Daily => 3
  }

  /** Whether `n` posts over `span` seconds make at least `p / q` posts a
      week, in exact arithmetic. */
  predicate PerWeekAtLeast(n: int, span: int, p: int, q: int) {
    span > 0 && n * 7 * Day * q >= p * span
  }

  /** Posts a week to frequency: 5 and up daily, 2 and up several a week,
      one every two weeks and up weekly, else sporadic. A span that is not
      positive counts as no posts a week. */
  function Classify(n: nat, span: int): Frequency {
    if PerWeekAtLeast(n, span, 5, 1) then Daily
    else if PerWeekAtLeast(n, span, 2, 1) then MultiplePerWeek
    else if PerWeekAtLeast(n, span, 1, 2) then Weekly
    else Sporadic
  }

  /** `calculate_publishing_frequency()`: `dates` are the published posts'
      dates, newest first; the ten newest are read, and the span runs from
      the oldest of them to the newest. */
  function PublishingFrequency(dates: seq<int>): (r: Frequency)
    ensures |dates| < 2 ==> r == Sporadic
    ensures |dates| >= 2 ==> r == Classify(|SliceHead(dates, 10)|, dates[0] - dates[|SliceHead(dates, 10)| - 1])
  {
    var recent := SliceHead(dates, 10);
    if |recent| < 2 then Sporadic
    else Classify(|recent|, recent[0] - recent[|recent| - 1])
  }

  /** The rate the source computes in floating point, here in exact reals:
      posts divided by days, times seven. */
  function PostsPerWeek(n: nat, span: int): real {
    if span > 0 then (n as real / (span as real / Day as real)) * 7.0 else 0.0
  }

  lemma PerWeekMeans(n: nat, span: int, p: int, q: int)
    requires q > 0
    ensures PerWeekAtLeast(n, span, p, q) <==> span > 0 && PostsPerWeek(n, span) >= p as real / q as real
  {
    if span > 0 {
      var d := span as real / Day as real;
      assert d > 0.0;
      assert n as real / d == (n as real * Day as real) / span as real;
      var lhs := (n * 7 * Day * q) as real;
      var rhs := (p * span) as real;
      assert PostsPerWeek(n, span) == (n * 7 * Day) as real / span as real;
      RealRatioAtLeast((n * 7 * Day) as real, span as real, p as real, q as real);
    }
  }

  /** `a / b >= p / q` for positive `b` and `q` is `a q >= p b`. */
  lemma RealRatioAtLeast(a: real, b: real, p: real, q: real)
    requires b > 0.0 && q > 0.0
    ensures a / b >= p / q <==> a * q >= p * b
  {
    assert a / b - p / q == (a * q - p * b) / (b * q);
  }

  /** The classification agrees with the source's rate: daily exactly at 5
      or more posts a week, several a week from 2, weekly from 0.5. */
  lemma ClassifyMatchesRate(n: nat, span: int)
    ensures var ppw := PostsPerWeek(n, span);
      (Classify(n, span) == Daily <==> ppw >= 5.0) &&
      (Classify(n, span) == MultiplePerWeek <==> 2.0 <= ppw < 5.0) &&
      (Classify(n, span) == Weekly <==> 0.5 <= ppw < 2.0) &&
      (Classify(n, span) == Sporadic <==> ppw < 0.5)
  {
    PerWeekMeans(n, span, 5, 1);
    PerWeekMeans(n, span, 2, 1);
    PerWeekMeans(n, span, 1, 2);
    if span <= 0 {
      assert PostsPerWeek(n, span) == 0.0;
    } else {
      assert PostsPerWeek(n, span) >= 0.0 by {
        assert span as real / Day as real > 0.0;
      }
    }
  }

  /** The same number of posts over a longer span never rates higher. */
  lemma FrequencyMonotone(n: nat, span1: int, span2: int)
    requires 0 < span1 <= span2
    ensures Rank(Classify(n, span2)) <= Rank(Classify(n, span1))
  {
  }

  /** Only the count, the newest and the oldest date read matter. */
  lemma OnlyEndpointsMatter(a: seq<int>, b: seq<int>)
    requires |a| >= 2 && |SliceHead(a, 10)| == |SliceHead(b, 10)| && a[0] == b[0]
    requires a[|SliceHead(a, 10)| - 1] == b[|SliceHead(b, 10)| - 1]
    ensures PublishingFrequency(a) == PublishingFrequency(b)
  {
  }

  /** Ten posts a day apart rate daily. The rate divides the number of
      posts, not of gaps between them, by the span: two posts a week apart
      already rate several a week, and two posts four weeks apart weekly.
      Two posts at the same moment rate sporadic. */
  lemma FrequencyExamples(t: int)
    ensures PublishingFrequency(seq(10, i => t - i * Day)) == Daily
    ensures PublishingFrequency([t, t - 7 * Day]) == MultiplePerWeek
    ensures PublishingFrequency([t, t - 28 * Day]) == Weekly
    ensures PublishingFrequency([t, t]) == Sporadic
  {
    var s := seq(10, i => t - i * Day);
    assert SliceHead(s, 10) == s;
    assert s[0] - s[9] == 9 * Day;
    assert SliceHead([t, t - 7 * Day], 10) == [t, t - 7 * Day];
    assert SliceHead([t, t - 28 * Day], 10) == [t, t - 28 * Day];
    assert SliceHead([t, t], 10) == [t, t];
  }

  // ---------------------------------------------------------------- site age

  /** PHP's `%`: the remainder takes the sign of the dividend. */
  function PhpMod(a: int, b: int): (r: int)
    requires b > 0
    ensures a >= 0 ==> r == a % b
    ensures a < 0 ==> -b < r <= 0 && a - r == -((-a) / b) * b
  {
    if a >= 0 then a % b else -((-a) % b)
  }

  datatype SiteAge = SiteAge(years: int, months: int, firstPostDate: Option<string>)

  /** `get_site_age()`: `first` is the oldest post's timestamp and date
      string, if any post exists; whole 365-day years and then whole 30-day
      months since it. */
  function GetSiteAge(first: Option<(int, string)>, now: int): (r: SiteAge)
    ensures first.None? ==> r == SiteAge(0, 0, None)
    ensures first.Some? ==> r.firstPostDate == Some(first.value.1)
  {
    match first
    case None => SiteAge(0, 0, None)
    case Some((date, text)) =>
      var diff := now - date;
      SiteAge(diff / Year, PhpMod(diff, Year) / Month, Some(text))
  }

  /** For a first post in the past, the age never overstates the time
      elapsed, leaves less than a year plus a month over, and has at most 12
      months: days 360 to 364 of a year read as 12 months. */
  lemma SiteAgeBounds(date: int, text: string, now: int)
    requires now >= date
    ensures var r := GetSiteAge(Some((date, text)), now);
      0 <= r.months <= 12 && 0 <= r.years &&
      r.years * Year + r.months * Month <= now - date < r.years * Year + (r.months + 1) * Month &&
      now - date < (r.years + 1) * Year
  {
    var diff := now - date;
    var rem := diff % Year;
    assert diff == (diff / Year) * Year + rem;
    assert rem / Month * Month <= rem < (rem / Month + 1) * Month;
  }

  /** A first post dated in the future gives a negative age: years round
      down and the months come from a negative remainder, also rounded
      down, so they reach -13. */
  lemma FutureFirstPost(date: int, text: string, now: int)
    requires now < date
    ensures var r := GetSiteAge(Some((date, text)), now);
      r.years < 0 && -13 <= r.months <= 0
  {
    var rem := PhpMod(now - date, Year);
    assert -Year < rem <= 0;
    assert rem / Month >= -13;
  }

  // ---------------------------------------------------------------- volume and length

  datatype ContentVolume = ContentVolume(posts: nat, pages: nat, total: nat)

  /** `get_content_volume()`: published posts, published pages, and their
      sum. */
  function GetContentVolume(posts: nat, pages: nat): (r: ContentVolume)
    ensures r.total == r.posts + r.pages && r.posts == posts && r.pages == pages
  {
    ContentVolume(posts, pages, posts + pages)
  }

  function Total(counts: seq<nat>): nat {
    if |counts| == 0 then 0 else Total(counts[..|counts| - 1]) + counts[|counts| - 1]
  }

  /** Lines 320-336: the mean word count of up to 50 published posts,
      rounded half up, and 0 for a site with none. */
  function AverageWordCount(contents: seq<string>, wordCount: string -> nat): (r: int)
    ensures |contents| == 0 ==> r == 0
  {
    var sample := SliceHead(contents, 50);
    var counts := seq(|sample|, i requires 0 <= i < |sample| => wordCount(sample[i]));
    if |sample| == 0 then 0 else RoundDiv(Total(counts), |sample|)
  }

  lemma {:induction false} TotalBounds(counts: seq<nat>, lo: nat, hi: nat)
    requires forall i :: 0 <= i < |counts| ==> lo <= counts[i] <= hi
    ensures lo * |counts| <= Total(counts) <= hi * |counts|
  {
    if |counts| > 0 {
      var n := |counts|;
      TotalBounds(counts[..n - 1], lo, hi);
      TotalStep(lo, hi, n, Total(counts[..n - 1]), counts[n - 1]);
    }
  }

  /** One more count in `lo..hi` keeps the total within the bounds. */
  lemma TotalStep(lo: int, hi: int, n: int, t: int, c: int)
    requires lo * (n - 1) <= t <= hi * (n - 1) && lo <= c <= hi
    ensures lo * n <= t + c <= hi * n
  {
    assert lo * n == lo * (n - 1) + lo;
    assert hi * n == hi * (n - 1) + hi;
  }

  /** The average lies between the shortest and the longest sampled post. */
  lemma AverageBetween(contents: seq<string>, wordCount: string -> nat, lo: nat, hi: nat)
    requires forall i :: 0 <= i < |contents| ==> lo <= wordCount(contents[i]) <= hi
    requires |contents| > 0
    ensures lo <= AverageWordCount(contents, wordCount) <= hi
  {
    var sample := SliceHead(contents, 50);
    var counts := seq(|sample|, i requires 0 <= i < |sample| => wordCount(sample[i]));
    TotalBounds(counts, lo, hi);
    RoundedBetween(Total(counts), |sample|, AverageWordCount(contents, wordCount), lo, hi);
  }

  /** A total of `n` values in `lo..hi`, divided by `n` and rounded, is in
      `lo..hi`. */
  lemma RoundedBetween(t: int, n: int, a: int, lo: int, hi: int)
    requires n > 0 && lo * n <= t <= hi * n
    requires 2 * (t - a * n) <= n && 2 * (a * n - t) <= n
    ensures lo <= a <= hi
  {
    MulSign(a - lo + 1, n);
    MulSign(a - hi - 1, n);
    assert (a - lo + 1) * n == a * n - lo * n + n;
    assert (a - hi - 1) * n == a * n - hi * n - n;
  }

  lemma MulSign(x: int, n: int)
    requires n > 0
    ensures x <= 0 ==> x * n <= 0
    ensures x >= 0 ==> x * n >= 0
  {
  }

  // ---------------------------------------------------------------- AI-described parts

  datatype Niche = Niche(
    primaryNiche: string, subNiches: seq<string>, contentPillars: seq<string>, audienceDescription: string,
    contentApproach: string, expertiseLevel: string, tone: string, keyTopics: seq<string>, contentGaps: seq<string>)

  datatype Audience = Audience(
    primaryAudience: string, painPoints: seq<string>, searchIntent: string, expertiseLevelSeeking: string,
    demographics: string)

  datatype WritingStyle = WritingStyle(
    tone: string, voice: string, sentenceStructure: string, paragraphLength: string, useOfExamples: string,
    technicalDepth: string, callToActions: string, commonPhrases: seq<string>, formattingPatterns: string)

  const DefaultNiche := Niche("general", [], [], "General audience", "informational", "beginner", "professional", [], [])
  const DefaultAudience := Audience("General readers", [], "informational", "beginner", "Mixed")
  const DefaultWritingStyle :=
    WritingStyle("professional", "third person", "varied", "medium", "moderate", "accessible", "present", [],
      "uses headers and lists")

  /** The AI's description when its reply decodes to an array, else the
      default. */
  function Described<T>(reply: Result<string>, decode: string -> Option<AiAnalyzer.Json<T>>, default: T): (r: T)
    ensures reply.Err? ==> r == default
    ensures var d := if reply.Ok? then decode(AiAnalyzer.JsonCandidate(reply.value)) else None;
      r == if d.Some? && d.value.JArray? then d.value.fields else default
    ensures r != default ==> reply.Ok?
  {
    match AiAnalyzer.ExtractJson(reply, decode)
    case Ok(j) => if j.JArray? then j.fields else default
    case Err(_) => default
  }

  /** `detect_niche()`: `samplePosts` is how many published posts the
      sample found; with none the default is returned and the AI is not
      asked. */
  function DetectNiche(samplePosts: nat, reply: Result<string>, decode: string -> Option<AiAnalyzer.Json<Niche>>): (r: Niche)
    ensures samplePosts == 0 || reply.Err? ==> r == DefaultNiche
    ensures samplePosts > 0 ==> r == Described(reply, decode, DefaultNiche)
  {
    if samplePosts == 0 then DefaultNiche else Described(reply, decode, DefaultNiche)
  }

  lemma NoPostsNoNicheCall(reply1: Result<string>, reply2: Result<string>,
                           decode: string -> Option<AiAnalyzer.Json<Niche>>)
    ensures DetectNiche(0, reply1, decode) == DetectNiche(0, reply2, decode)
  {
  }

  /** `analyze_target_audience()`: without the Search Console connector the
      default, otherwise the AI's description of the most-commented titles. */
  function AnalyzeTargetAudience(gscAvailable: bool, reply: Result<string>,
                                 decode: string -> Option<AiAnalyzer.Json<Audience>>): (r: Audience)
    ensures !gscAvailable || reply.Err? ==> r == DefaultAudience
    ensures gscAvailable ==> r == Described(reply, decode, DefaultAudience)
  {
    if !gscAvailable then DefaultAudience else Described(reply, decode, DefaultAudience)
  }

  /** The top performers that still load. */
  function LoadedPosts(site: Site, ids: seq<int>): (r: seq<int>)
    ensures forall i :: 0 <= i < |r| ==> r[i] in site.posts && r[i] in ids
    ensures forall id :: id in ids && id in site.posts ==> id in r
  {
    if |ids| == 0 then []
    else (if ids[0] in site.posts then [ids[0]] else []) + LoadedPosts(site, ids[1..])
  }

  /** `extract_writing_style()`: `top` are the top performers' ids; with
      none, or none that loads, the default is returned and the AI is not
      asked. */
  function ExtractWritingStyle(site: Site, top: seq<int>, reply: Result<string>,
                               decode: string -> Option<AiAnalyzer.Json<WritingStyle>>): (r: WritingStyle)
    ensures (forall i :: 0 <= i < |top| ==> top[i] !in site.posts) ==> r == DefaultWritingStyle
    ensures reply.Err? ==> r == DefaultWritingStyle
    ensures (exists i :: 0 <= i < |top| && top[i] in site.posts) ==> r == Described(reply, decode, DefaultWritingStyle)
  {
    if |top| == 0 then DefaultWritingStyle
    else
      var loaded := LoadedPosts(site, top);
      if |loaded| == 0 then DefaultWritingStyle
      else
        assert loaded[0] in top && loaded[0] in site.posts;
        Described(reply, decode, DefaultWritingStyle)
  }

  /** The parts of `build_site_profile()` this model covers. */
  datatype Profile = Profile(
    niche: Niche, audience: Audience, totalPosts: nat, avgWordCount: int, frequency: Frequency,
    style: WritingStyle, age: SiteAge, volume: ContentVolume)

  /** The inputs of one profile build: counts, dates and the AI's replies. */
  datatype ProfileInputs = ProfileInputs(
    samplePosts: nat, nicheReply: Result<string>, nicheDecode: string -> Option<AiAnalyzer.Json<Niche>>,
    gscAvailable: bool, audienceReply: Result<string>, audienceDecode: string -> Option<AiAnalyzer.Json<Audience>>,
    publishedPosts: nat, publishedPages: nat, contents: seq<string>, wordCount: string -> nat,
    dates: seq<int>, top: seq<int>, styleReply: Result<string>,
    styleDecode: string -> Option<AiAnalyzer.Json<WritingStyle>>, first: Option<(int, string)>, now: int)

  /** `build_site_profile()`, over the parts above. */
  function BuildSiteProfile(site: Site, p: ProfileInputs): (r: Profile)
    ensures r.volume.total == p.publishedPosts + p.publishedPages && r.totalPosts == r.volume.posts
    ensures p.samplePosts == 0 ==> r.niche == DefaultNiche
    ensures p.first.None? ==> r.age == SiteAge(0, 0, None)
    ensures |p.dates| < 2 ==> r.frequency == Sporadic
    ensures r.niche == DetectNiche(p.samplePosts, p.nicheReply, p.nicheDecode)
    ensures r.audience == AnalyzeTargetAudience(p.gscAvailable, p.audienceReply, p.audienceDecode)
    ensures r.totalPosts == p.publishedPosts && r.avgWordCount == AverageWordCount(p.contents, p.wordCount)
    ensures r.frequency == PublishingFrequency(p.dates)
    ensures r.style == ExtractWritingStyle(site, p.top, p.styleReply, p.styleDecode)
    ensures r.age == GetSiteAge(p.first, p.now)
    ensures r.volume == GetContentVolume(p.publishedPosts, p.publishedPages)
  {
    Profile(
      DetectNiche(p.samplePosts, p.nicheReply, p.nicheDecode),
      AnalyzeTargetAudience(p.gscAvailable, p.audienceReply, p.audienceDecode),
      p.publishedPosts,
      AverageWordCount(p.contents, p.wordCount),
      PublishingFrequency(p.dates),
      ExtractWritingStyle(site, p.top, p.styleReply, p.styleDecode),
      GetSiteAge(p.first, p.now),
      GetContentVolume(p.publishedPosts, p.publishedPages))
  }

  /** A site with no published posts gets the default niche and writing
      style, no age, a sporadic rate and no posts or words, whatever the AI
      would have answered. */
  lemma ProfileOfEmptySite(site: Site, p: ProfileInputs)
    requires p.samplePosts == 0 && p.publishedPosts == 0 && |p.contents| == 0 && |p.dates| == 0
    requires |p.top| == 0 && p.first.None?
    ensures BuildSiteProfile(site, p) ==
      Profile(DefaultNiche, AnalyzeTargetAudience(p.gscAvailable, p.audienceReply, p.audienceDecode), 0, 0,
              Sporadic, DefaultWritingStyle, SiteAge(0, 0, None), ContentVolume(0, p.publishedPages, p.publishedPages))
  {
  }
}
