/** Profile-aware generation of fixes
    (`modules/intelligence/class-context-aware-generator.php`): meta
    descriptions, alt text, expanded content, title tags and schema markup.
    Prompts are not modelled: the AI is an oracle from what is asked (which
    post, and the inputs the source folds into the prompt) to its reply. */
module ContextGenerator {
  import opened Common
  import opened Text
  import opened Sorting
  import opened WordPress
  import opened Database
  import Settings

  /** What a generation call asks for. */
  datatype Ask =
    | MetaAsk(postId: int)
    | AltAsk(postId: int, imageDescription: string)
    | ExpandAsk(postId: int, targetWords: int, research: Option<string>)
    | TitleAsk(postId: int)
    | ResearchAsk(title: string)

  /** The guard every profile-based generator starts with: `no_profile`
      before the post is even looked up, then `post_not_found`. */
  function Guarded(hasProfile: bool, site: Site, postId: int, ask: Post -> Result<string>): (r: Result<string>)
    ensures !hasProfile ==> r == Err(NoProfile)
    ensures hasProfile && postId !in site.posts ==> r == Err(PostNotFound)
    ensures hasProfile && postId in site.posts ==> r == ask(site.posts[postId])
  {
    if !hasProfile then Err(NoProfile)
    else match GetPost(site, postId)
      case None => Err(PostNotFound)
      case Some(post) => ask(post)
  }

  /** `generate_meta_description($post_id)`. */
  function GenerateMetaDescription(hasProfile: bool, site: Site, postId: int, ai: Ask -> Result<string>): (r: Result<string>)
    ensures !hasProfile ==> r == Err(NoProfile)
    ensures hasProfile && postId !in site.posts ==> r == Err(PostNotFound)
    ensures hasProfile && postId in site.posts ==> r == ai(MetaAsk(postId))
  {
    Guarded(hasProfile, site, postId, _ => ai(MetaAsk(postId)))
  }

  /** The image description the alt-text prompt uses: the vision result, or
      "Image for <title>" when it failed. */
  function ImageDescription(vision: Result<string>, title: string): (r: string)
    ensures vision.Ok? ==> r == vision.value
    ensures vision.Err? ==> r == "Image for " + title
  {
    if vision.Ok? then vision.value else "Image for " + title
  }

  /** `generate_alt_text($image_url, $post_id)`; `vision` is what
      `describe_image_gemini` returned for the image. */
  function GenerateAltText(hasProfile: bool, site: Site, postId: int, vision: Result<string>, ai: Ask -> Result<string>): (r: Result<string>)
    ensures !hasProfile ==> r == Err(NoProfile)
    ensures hasProfile && postId !in site.posts ==> r == Err(PostNotFound)
    ensures hasProfile && postId in site.posts ==>
      r == ai(AltAsk(postId, ImageDescription(vision, site.posts[postId].title)))
  {
    Guarded(hasProfile, site, postId, (post: Post) => ai(AltAsk(postId, ImageDescription(vision, post.title))))
  }

  /** `generate_title_tag($post_id)`. */
  function GenerateTitleTag(hasProfile: bool, site: Site, postId: int, ai: Ask -> Result<string>): (r: Result<string>)
    ensures !hasProfile ==> r == Err(NoProfile)
    ensures hasProfile && postId !in site.posts ==> r == Err(PostNotFound)
    ensures hasProfile && postId in site.posts ==> r == ai(TitleAsk(postId))
  {
    Guarded(hasProfile, site, postId, _ => ai(TitleAsk(postId)))
  }

  /** `research_topic($title, $context)`: a live, non-empty cache entry is
      returned without a call; otherwise the search-assisted call runs and only
      a successful answer is cached, for one week. */
  function ResearchTopic(t: Tables, title: string, now: int, ai: Ask -> Result<string>): (r: (Result<string>, Tables))
    ensures Truthy(GetCachedResearch(t, title, now)) ==> r == (Ok(GetCachedResearch(t, title, now).value), t)
    ensures !Truthy(GetCachedResearch(t, title, now)) ==> r.0 == ai(ResearchAsk(title))
    ensures r.0.Err? ==> r.1 == t
    ensures !Truthy(GetCachedResearch(t, title, now)) && r.0.Ok? ==>
      r.1 == CacheResearch(t, title, r.0.value, now)
  {
    var cached := GetCachedResearch(t, title, now);
    if Truthy(cached) then (Ok(cached.value), t)
    else
      var research := ai(ResearchAsk(title));
      if research.Ok? then (research, CacheResearch(t, title, research.value, now))
      else (research, t)
  }

  /** A cache hit answers the same whatever the AI would have said. */
  lemma CachedResearchNoCall(t: Tables, title: string, now: int, ai1: Ask -> Result<string>, ai2: Ask -> Result<string>)
    requires Truthy(GetCachedResearch(t, title, now))
    ensures ResearchTopic(t, title, now, ai1) == ResearchTopic(t, title, now, ai2)
  {
  }

  /** Research that succeeded is served from the cache for the rest of the
      week, without another call. */
  lemma ResearchCachedForAWeek(t: Tables, title: string, now: int, later: int, ai: Ask -> Result<string>, ai2: Ask -> Result<string>)
    requires !Truthy(GetCachedResearch(t, title, now))
    requires ai(ResearchAsk(title)).Ok? && !PhpEmpty(ai(ResearchAsk(title)).value)
    requires now <= later < now + ResearchLifetime
    ensures ResearchTopic(ResearchTopic(t, title, now, ai).1, title, later, ai2).0 == ai(ResearchAsk(title))
  {
    var t1 := ResearchTopic(t, title, now, ai).1;
    assert GetCachedResearch(t1, title, later) == Some(ai(ResearchAsk(title)).value);
  }

  /** The research text the expansion prompt carries: a successful, non-empty
      answer, and nothing otherwise. */
  function UsableResearch(research: Result<string>): (r: Option<string>)
    ensures r.Some? <==> research.Ok? && !PhpEmpty(research.value)
    ensures r.Some? ==> r.value == research.value
  {
    if research.Ok? && !PhpEmpty(research.value) then Some(research.value) else None
  }

  /** `expand_thin_content($post_id, $target_word_count)`. The target falls
      back to the configured word count; research is done only when enabled,
      and reaches the prompt only when it succeeded with a non-empty text. */
  function ExpandThinContent(hasProfile: bool, site: Site, postId: int, target: Option<int>,
                             settings: Settings.Store, t: Tables, now: int, ai: Ask -> Result<string>): (r: (Result<string>, Tables))
    ensures !hasProfile ==> r == (Err(NoProfile), t)
    ensures hasProfile && postId !in site.posts ==> r == (Err(PostNotFound), t)
    ensures !Settings.ContentResearchEnabled(settings) ==> r.1 == t
    ensures hasProfile && postId in site.posts ==>
      exists research: Option<string> ::
        r.0 == ai(ExpandAsk(postId, target.GetOr(Settings.TargetWordCount(settings)), research)) &&
        (!Settings.ContentResearchEnabled(settings) ==> research == None) &&
        (research.Some? ==> !PhpEmpty(research.value))
    ensures hasProfile && postId in site.posts && !Settings.ContentResearchEnabled(settings) ==>
      r.0 == ai(ExpandAsk(postId, target.GetOr(Settings.TargetWordCount(settings)), None))
    ensures hasProfile && postId in site.posts && Settings.ContentResearchEnabled(settings) ==>
      var researched := ResearchTopic(t, site.posts[postId].title, now, ai);
      r.1 == researched.1 &&
      r.0 == ai(ExpandAsk(postId, target.GetOr(Settings.TargetWordCount(settings)), UsableResearch(researched.0)))
  {
    if !hasProfile then (Err(NoProfile), t)
    else match GetPost(site, postId)
      case None => (Err(PostNotFound), t)
      case Some(post) =>
        var words := target.GetOr(Settings.TargetWordCount(settings));
        var (used, t1) :=
          if Settings.ContentResearchEnabled(settings) then
            var (research, t2) := ResearchTopic(t, post.title, now, ai);
            (UsableResearch(research), t2)
          else (None, t);
        (ai(ExpandAsk(postId, words, used)), t1)
  }

  /** With research enabled and a live cached entry for the title, the
      expansion uses the cached text and leaves the tables as they were. */
  lemma ExpandServedFromCache(site: Site, postId: int, target: Option<int>, settings: Settings.Store,
                              t: Tables, now: int, ai: Ask -> Result<string>)
    requires postId in site.posts && Settings.ContentResearchEnabled(settings)
    requires Truthy(GetCachedResearch(t, site.posts[postId].title, now))
    ensures ExpandThinContent(true, site, postId, target, settings, t, now, ai) ==
      (ai(ExpandAsk(postId, target.GetOr(Settings.TargetWordCount(settings)),
                    GetCachedResearch(t, site.posts[postId].title, now))), t)
  {
  }

  /** `get_the_category`'s first name, 'General' for an uncategorised post. */
  function Category(post: Post): (r: string)
    ensures |post.categories| == 0 ==> r == "General"
    ensures |post.categories| > 0 ==> r == post.categories[0]
  {
    if |post.categories| > 0 then post.categories[0] else "General"
  }

  /** The schema.org object `generate_schema_markup` encodes; `summary` is
      the 50-word excerpt of the stripped content. */
  datatype SchemaMarkup = SchemaMarkup(
    schemaType: string,
    headline: string,
    description: string,
    datePublished: string,
    dateModified: string,
    image: Option<string>)

  /** `generate_schema_markup($post_id, $schema_type)`: no profile needed; the
      type defaults to Article and an image appears only for a thumbnail
      with a URL. `iso` formats a Unix time as WordPress's 'c' (ISO 8601). */
  function GenerateSchemaMarkup(site: Site, postId: int, schemaType: Option<string>, summarize: string -> string,
                                iso: int -> string): (r: Result<SchemaMarkup>)
    ensures postId !in site.posts <==> r == Err(PostNotFound)
    ensures r.Ok? ==>
      var post := site.posts[postId];
      r.value.schemaType == schemaType.GetOr("Article") &&
      r.value.headline == post.title &&
      r.value.description == summarize(post.content) &&
      r.value.datePublished == iso(post.publishedAt) &&
      r.value.dateModified == iso(post.modifiedAt) &&
      (r.value.image.Some? <==> Truthy(post.thumbnailUrl)) &&
      (r.value.image.Some? ==> r.value.image == post.thumbnailUrl)
  {
    match GetPost(site, postId)
    case None => Err(PostNotFound)
    case Some(post) =>
      Ok(SchemaMarkup(schemaType.GetOr("Article"), post.title, summarize(post.content),
        iso(post.publishedAt), iso(post.modifiedAt), if Truthy(post.thumbnailUrl) then post.thumbnailUrl else None))
  }

  const StopWords: set<string> := {
    "the", "a", "an", "and", "or", "but", "in", "on", "at", "to", "for", "of", "with", "by",
    "from", "as", "is", "was", "are", "were", "been", "be", "have", "has", "had", "do", "does",
    "did", "will", "would", "should", "could", "may", "might", "must", "can", "this", "that",
    "these", "those", "i", "you", "he", "she", "it", "we", "they", "what", "which", "who",
    "when", "where", "why", "how"}

  /** A title word that survives `array_diff` with the stop words and
      `array_filter`. */
  predicate KeywordCandidate(w: string) {
    w !in StopWords && !PhpEmpty(w)
  }

  /** The space-separated words of the lower-cased title. */
  function TitleWords(title: string): seq<string> {
    Split(Lower(title), ' ')
  }

  /** `extract_keywords_simple($content, $title)`: the first five distinct
      candidate words of the title, in order of first occurrence. */
  function ExtractKeywords(title: string): (r: seq<string>)
    ensures |r| <= 5
    ensures Distinct(r)
    ensures forall i :: 0 <= i < |r| ==> KeywordCandidate(r[i]) && r[i] in TitleWords(title) && ' ' !in r[i]
    ensures |r| < 5 ==> forall w :: w in TitleWords(title) && KeywordCandidate(w) ==> w in r
  {
    var candidates := Filter(TitleWords(title), KeywordCandidate);
    var unique := Dedupe(candidates);
    var r := SliceHead(unique, 5);
    forall i | 0 <= i < |r| ensures KeywordCandidate(r[i]) && r[i] in TitleWords(title) {
      FilterMember(TitleWords(title), KeywordCandidate, r[i]);
    }
    forall w | |r| < 5 && w in TitleWords(title) && KeywordCandidate(w) ensures w in r {
      FilterMember(TitleWords(title), KeywordCandidate, w);
      var k :| 0 <= k < |candidates| && candidates[k] == w;
      assert r == unique;
    }
    r
  }

  /** The keywords come in the order of their first occurrence in the title,
      and a candidate word is left out only when five keywords occur before
      it. */
  lemma ExtractKeywordsExactly(title: string)
    ensures forall i, j :: 0 <= i < j < |ExtractKeywords(title)| ==>
      FirstIndex(TitleWords(title), ExtractKeywords(title)[i]) < FirstIndex(TitleWords(title), ExtractKeywords(title)[j])
    ensures forall w :: w in TitleWords(title) && KeywordCandidate(w) && w !in ExtractKeywords(title) ==>
      |ExtractKeywords(title)| == 5 &&
      forall i :: 0 <= i < 5 ==> FirstIndex(TitleWords(title), ExtractKeywords(title)[i]) < FirstIndex(TitleWords(title), w)
  {
    var words := TitleWords(title);
    var candidates := Filter(words, KeywordCandidate);
    var unique := Dedupe(candidates);
    var r := ExtractKeywords(title);
    assert r == unique[..|r|];
    DedupeOrder(candidates);
    forall i, j | 0 <= i < j < |r| ensures FirstIndex(words, r[i]) < FirstIndex(words, r[j]) {
      FilterFirstIndex(words, KeywordCandidate, r[i], r[j]);
    }
    forall w | w in words && KeywordCandidate(w) && w !in r
      ensures |r| == 5 && forall i :: 0 <= i < 5 ==> FirstIndex(words, r[i]) < FirstIndex(words, w)
    {
      FilterMember(words, KeywordCandidate, w);
      var k :| 0 <= k < |unique| && unique[k] == w;
      forall i | 0 <= i < 5 ensures FirstIndex(words, r[i]) < FirstIndex(words, w) {
        FilterFirstIndex(words, KeywordCandidate, unique[i], w);
      }
    }
  }
}
