/** The E-E-A-T enhancer: an author box, citation and expertise suggestions,
    a "last updated" notice, a methodology section for review articles and a
    list of the sources an article links to. AI replies are inputs; so are
    `esc_url`, `strip_tags`, the host part of a URL and the links the
    anchor regex finds. */
module EeatEnhancer {
  import opened Common
  import opened Text
  import opened WordPress
  import AiAnalyzer

  // ---------------------------------------------------------------- author box

  const BioOpen := "<div class=\"sap-author-bio\" style=\"background: #f8f9fa; border: 1px solid #dee2e6; " +
    "padding: 20px; margin: 30px 0; border-radius: 5px; display: flex; gap: 20px;\" " +
    "itemscope itemtype=\"https://schema.org/Person\">\n" +
    "  <div style=\"flex-shrink: 0;\">\n" +
    "    <img src=\""
  const BioAlt := "\" alt=\""
  const BioImageEnd := "\" style=\"border-radius: 50%; width: 80px; height: 80px;\" itemprop=\"image\">\n" +
    "  </div>\n" +
    "  <div>\n" +
    "    <h4 style=\"margin: 0 0 10px 0;\">About <span itemprop=\"name\">"
  const BioNameEnd := "</span></h4>\n" +
    "    <p style=\"margin: 0; color: #6c757d;\" itemprop=\"description\">"
  const BioTextEnd := "</p>\n" +
    "    <p style=\"margin: 10px 0 0 0;\"><a href=\""
  const BioLinkEnd := "\" style=\"color: #0066cc; text-decoration: none;\" itemprop=\"url\">View all posts by "
  const BioClose := " →</a></p>\n" +
    "  </div>\n" +
    "</div>"

  /** The box up to the bio: avatar, alt text and the "About" heading. */
  function BioFront(u: User, escUrl: string -> string): (r: string)
    ensures StartsWith(r, BioOpen) && Contains(r, EscHtml(u.displayName))
  {
    var name := EscHtml(u.displayName);
    var avatar := escUrl(u.avatarUrl) + BioAlt;
    var heading := BioImageEnd + name + BioNameEnd;
    OpenedAround(BioOpen, avatar, name, heading);
    BioOpen + avatar + name + heading
  }

  /** The box after the bio: the link to the author's posts. */
  function BioBack(u: User, escUrl: string -> string): (r: string)
    ensures Contains(r, escUrl(u.postsUrl))
  {
    var url := escUrl(u.postsUrl);
    var link := BioLinkEnd + EscHtml(u.displayName) + BioClose;
    ContainsMiddle(BioTextEnd, url, link);
    BioTextEnd + url + link
  }

  /** A text that opens with `p`, with `mid` somewhere after it. */
  lemma OpenedAround(p: string, x: string, mid: string, y: string)
    ensures StartsWith(p + x + mid + y, p) && Contains(p + x + mid + y, mid)
  {
    ContainsMiddle(p + x, mid, y);
    assert p + x + mid + y == p + (x + mid + y);
    StartsWithAppend(p, x + mid + y, p);
  }

  /** Parts found in the first and last of three pieces are found in the
      whole. */
  lemma ContainsEnds(a: string, b: string, c: string, p: string, q: string)
    requires Contains(a, p) && Contains(c, q)
    ensures Contains(a + b + c, p) && Contains(a + b + c, q)
  {
    ContainsExtend([], a, b + c, p);
    assert [] + a + (b + c) == a + b + c;
    ContainsExtend(a + b, c, [], q);
    assert a + b + c + [] == a + b + c;
  }

  /** The author box for a user and the (unescaped) bio it shows: the
      author's name, the bio and the link to the author's posts. */
  function BioBox(u: User, bio: string, escUrl: string -> string): (r: string)
    ensures StartsWith(r, BioOpen) && Contains(r, EscHtml(bio))
    ensures Contains(r, EscHtml(u.displayName)) && Contains(r, escUrl(u.postsUrl))
  {
    var front, mid, back := BioFront(u, escUrl), EscHtml(bio), BioBack(u, escUrl);
    FramedFacts(front, mid, back, BioOpen);
    ContainsEnds(front, mid, back, EscHtml(u.displayName), escUrl(u.postsUrl));
    front + mid + back
  }

  /** `generate_author_bio`: the AI's bio, saved as the author's description;
      the empty string, and nothing saved, when the call fails. */
  function GenerateAuthorBio(site: Site, author: int, reply: Result<string>, w: WriteOutcome): (r: (string, Site))
    ensures reply.Err? ==> r == ("", site)
    ensures reply.Ok? ==> r.0 == reply.value && r.1 == UpdateUserDescription(site, author, reply.value, w)
  {
    match reply
    case Err(_) => ("", site)
    case Ok(bio) => (bio, UpdateUserDescription(site, author, bio, w))
  }

  /** The bio an author box shows: the author's description, or a generated
      one when the description is empty. */
  function ShownBio(site: Site, author: int, reply: Result<string>, w: WriteOutcome): (r: (string, Site))
    ensures !PhpEmpty(GetUser(site, author).description) ==> r == (GetUser(site, author).description, site)
    ensures PhpEmpty(GetUser(site, author).description) ==> r == GenerateAuthorBio(site, author, reply, w)
  {
    var d := GetUser(site, author).description;
    if PhpEmpty(d) then GenerateAuthorBio(site, author, reply, w) else (d, site)
  }

  /** `add_author_bio_box($post_id)`: the box's HTML (the post itself is not
      changed). */
  function AddAuthorBioBox(site: Site, postId: int, reply: Result<string>, w: WriteOutcome, escUrl: string -> string): (r: Result<(string, Site)>)
    ensures postId !in site.posts <==> r == Err(PostNotFound)
    ensures r.Ok? ==>
      var author := site.posts[postId].author;
      var (bio, s) := ShownBio(site, author, reply, w);
      r.value.1 == s && StartsWith(r.value.0, BioOpen) && Contains(r.value.0, EscHtml(bio))
    ensures r.Ok? ==>
      var user := GetUser(site, site.posts[postId].author);
      Contains(r.value.0, EscHtml(user.displayName)) && Contains(r.value.0, escUrl(user.postsUrl))
    ensures r.Ok? ==> r.value.1.posts == site.posts
  {
    match GetPost(site, postId)
    case None => Err(PostNotFound)
    case Some(post) =>
      var (bio, s) := ShownBio(site, post.author, reply, w);
      Ok((BioBox(GetUser(site, post.author), bio, escUrl), s))
  }

  /** A generated bio that was saved is reused: the next box for the same
      author needs no AI call. */
  lemma SavedBioReused(site: Site, postId: int, reply: Result<string>, w: WriteOutcome, escUrl: string -> string,
                       reply1: Result<string>, reply2: Result<string>)
    requires postId in site.posts && site.posts[postId].author in site.users
    requires reply.Ok? && !PhpEmpty(reply.value) && w.Stored?
    requires AddAuthorBioBox(site, postId, reply, w, escUrl).Ok?
    ensures var s := AddAuthorBioBox(site, postId, reply, w, escUrl).value.1;
      AddAuthorBioBox(s, postId, reply1, w, escUrl) == AddAuthorBioBox(s, postId, reply2, w, escUrl)
  {
    var author := site.posts[postId].author;
    var s := AddAuthorBioBox(site, postId, reply, w, escUrl).value.1;
    if PhpEmpty(GetUser(site, author).description) {
      assert GetUser(s, author).description == reply.value;
    }
    assert !PhpEmpty(GetUser(s, author).description);
  }

  // ---------------------------------------------------------------- suggestions

  /** `suggest_citations` and `add_expertise_signals`: the decoded JSON of
      the AI's reply for an existing post. */
  function JsonSuggestions<J>(site: Site, postId: int, reply: Result<string>, decode: string -> Option<J>): (r: Result<J>)
    ensures postId !in site.posts ==> r == Err(PostNotFound)
    ensures postId in site.posts ==> r == AiAnalyzer.ExtractJson(reply, decode)
  {
    if postId !in site.posts then Err(PostNotFound) else AiAnalyzer.ExtractJson(reply, decode)
  }

  // ---------------------------------------------------------------- updated date

  const UpdatedMarker := "class=\"sap-updated-date\""
  const NoticeOpen := "<div " + UpdatedMarker
  const NoticeStyle := " style=\"background: #e7f3ff; border-left: 4px solid #2196F3; padding: 15px; margin: 20px 0;\">\n" +
    "  <p style=\"margin: 0;\"><strong>Last Updated:</strong> <time datetime=\""
  const NoticeClose := "</time></p>\n</div>"

  /** The notice for a post modified on `modified` (ISO form `iso`). */
  function UpdatedNotice(iso: string, modified: string): (r: string)
    ensures StartsWith(r, NoticeOpen) && Contains(r, UpdatedMarker)
  {
    var rest := NoticeStyle + iso + "\">" + EscHtml(modified) + NoticeClose;
    ContainsMiddle("<div ", UpdatedMarker, rest);
    NoticeOpen + rest
  }

  /** Whether `add_updated_date` adds a notice. */
  predicate NeedsNotice(site: Site, postId: int) {
    postId in site.posts &&
    site.posts[postId].modifiedOn != site.posts[postId].publishedOn &&
    !Contains(site.posts[postId].content, UpdatedMarker)
  }

  /** `add_updated_date($post_id)`: true when a notice is put at the top of
      the post, which happens only for a post modified after it was
      published that has no notice yet. The write's own outcome is ignored. */
  function AddUpdatedDate(site: Site, postId: int, iso: string, w: WriteOutcome): (r: (bool, Site))
    ensures r.0 <==> NeedsNotice(site, postId)
    ensures !r.0 ==> r.1 == site
    ensures r.0 ==>
      var p := site.posts[postId];
      r.1 == UpdateContent(site, postId, UpdatedNotice(iso, p.modifiedOn) + "\n\n" + p.content, w)
  {
    match GetPost(site, postId)
    case None => (false, site)
    case Some(p) =>
      if p.modifiedOn == p.publishedOn then (false, site)
      else if Contains(p.content, UpdatedMarker) then (false, site)
      else
        var content := UpdatedNotice(iso, p.modifiedOn) + "\n\n" + p.content;
        (true, UpdateContent(site, postId, content, w))
  }

  /** A stored notice is never added twice. */
  lemma UpdatedDateOnce(site: Site, postId: int, iso: string, iso2: string, w: WriteOutcome, w2: WriteOutcome)
    requires w.Stored?
    ensures var s := AddUpdatedDate(site, postId, iso, w).1;
      AddUpdatedDate(s, postId, iso2, w2) == (false, s)
  {
    var s := AddUpdatedDate(site, postId, iso, w).1;
    if NeedsNotice(site, postId) {
      var p := site.posts[postId];
      var n := UpdatedNotice(iso, p.modifiedOn);
      ContainsAppend(n, "\n\n", UpdatedMarker);
      ContainsAppend(n + "\n\n", p.content, UpdatedMarker);
      assert s.posts[postId].content == n + "\n\n" + p.content;
    }
  }

  /** The notice goes in front: the post's earlier content follows it
      unchanged. */
  lemma NoticeKeepsContent(site: Site, postId: int, iso: string, w: WriteOutcome)
    requires NeedsNotice(site, postId) && w.Stored?
    ensures var c := site.posts[postId].content;
      var s := AddUpdatedDate(site, postId, iso, w).1;
      EndsWith(s.posts[postId].content, "\n\n" + c)
  {
    var c := site.posts[postId].content;
    var n := UpdatedNotice(iso, site.posts[postId].modifiedOn);
    var t := n + "\n\n" + c;
    assert t == n + ("\n\n" + c);
    assert t[|t| - |"\n\n" + c|..] == "\n\n" + c;
  }

  // ---------------------------------------------------------------- methodology

  /** A review-type title: "best", "review" or "top " in its lower-cased
      form. */
  predicate IsReviewTitle(title: string) {
    var t := Lower(title);
    Contains(t, "best") || Contains(t, "review") || Contains(t, "top ")
  }

  /** `add_methodology_section($post_id)`: the AI's section for a review
      article, not_applicable for any other post. */
  function AddMethodologySection(site: Site, postId: int, reply: Result<string>): (r: Result<string>)
    ensures postId !in site.posts ==> r == Err(PostNotFound)
    ensures postId in site.posts && !IsReviewTitle(site.posts[postId].title) ==> r == Err(NotApplicable)
    ensures postId in site.posts && IsReviewTitle(site.posts[postId].title) ==> r == reply
  {
    match GetPost(site, postId)
    case None => Err(PostNotFound)
    case Some(p) =>
      if !IsReviewTitle(p.title) then Err(NotApplicable) else reply
  }

  /** Articles that are not reviews get no AI call. */
  lemma MethodologyOnlyForReviews(site: Site, postId: int, reply1: Result<string>, reply2: Result<string>)
    requires postId in site.posts && !IsReviewTitle(site.posts[postId].title)
    ensures AddMethodologySection(site, postId, reply1) == AddMethodologySection(site, postId, reply2) == Err(NotApplicable)
  {
  }

  /** The test ignores letter case. */
  lemma ReviewTitleIgnoresCase(title: string)
    ensures IsReviewTitle(Lower(title)) <==> IsReviewTitle(title)
  {
    assert Lower(Lower(title)) == Lower(title);
  }

  /** The test looks for substrings, not words: "Laptop stands" counts as a
      review title. */
  lemma LaptopIsReview()
    ensures IsReviewTitle("Laptop stands")
  {
    assert Lower("Laptop stands") == "laptop stands";
    OccursContains("laptop stands", "top ", 3);
  }

  // ---------------------------------------------------------------- sources

  /** One match of the anchor regex: the absolute URL and the link text. */
  datatype Link = Link(url: string, text: string)

  /** The tools the list items need: `esc_url`, `strip_tags` and the host part
      of a URL (`parse_url(..., PHP_URL_HOST)`, empty when there is none). */
  datatype SourceTools = SourceTools(escUrl: string -> string, stripTags: string -> string, host: string -> string)

  const SourcesOpen := "<div class=\"sap-sources\" style=\"background: #f8f9fa; padding: 20px; margin: 30px 0; border-top: 2px solid #dee2e6;\">\n" +
    "  <h3>Sources & References</h3>\n" +
    "  <ol style=\"line-height: 1.8;\">\n"
  const SourcesClose := "  </ol>\n</div>"

  /** The links that do not contain the site's URL, in their order. */
  function ExternalLinks(links: seq<Link>, siteUrl: string): (r: seq<Link>)
    ensures |r| <= |links|
  {
    if |links| == 0 then []
    else if Contains(links[0].url, siteUrl) then ExternalLinks(links[1..], siteUrl)
    else [links[0]] + ExternalLinks(links[1..], siteUrl)
  }

  /** A link is listed exactly when it is on the page and external. */
  lemma {:induction false} ExternalLinksMembers(links: seq<Link>, siteUrl: string, x: Link)
    ensures x in ExternalLinks(links, siteUrl) <==> x in links && !Contains(x.url, siteUrl)
    decreases |links|
  {
    if |links| > 0 {
      ExternalLinksMembers(links[1..], siteUrl, x);
      assert x in links <==> x == links[0] || x in links[1..] by {
        assert links == [links[0]] + links[1..];
      }
    }
  }

  /** The filter keeps the order of the page: it distributes over
      concatenation. */
  lemma {:induction false} ExternalLinksAppend(a: seq<Link>, b: seq<Link>, siteUrl: string)
    ensures ExternalLinks(a + b, siteUrl) == ExternalLinks(a, siteUrl) + ExternalLinks(b, siteUrl)
    decreases |a|
  {
    if |a| > 0 {
      assert (a + b)[1..] == a[1..] + b;
      ExternalLinksAppend(a[1..], b, siteUrl);
    } else {
      assert a + b == b;
    }
  }

  /** The text of a list item: the link text without tags, or the URL's host
      when that is falsy. */
  function SourceLabel(l: Link, t: SourceTools): string {
    var text := t.stripTags(l.text);
    if PhpEmpty(text) then t.host(l.url) else text
  }

  function SourceItem(l: Link, t: SourceTools): string {
    "    <li><a href=\"" + t.escUrl(l.url) + "\" target=\"_blank\" rel=\"noopener\">" + EscHtml(SourceLabel(l, t)) + "</a></li>\n"
  }

  function SourceItems(links: seq<Link>, t: SourceTools): (r: seq<string>)
    ensures |r| == |links|
    ensures forall i :: 0 <= i < |links| ==> r[i] == SourceItem(links[i], t)
  {
    seq(|links|, i requires 0 <= i < |links| => SourceItem(links[i], t))
  }

  function SourcesHtml(links: seq<Link>, t: SourceTools): string {
    SourcesOpen + Concat(SourceItems(links, t)) + SourcesClose
  }

  /** `generate_sources_section($post_id)`: no_links when the content has no
      absolute link; otherwise one item per external link, in order. A page
      whose links are all internal gets a section with an empty list. */
  function GenerateSourcesSection(site: Site, postId: int, links: seq<Link>, siteUrl: string, t: SourceTools): (r: Result<string>)
    ensures postId !in site.posts ==> r == Err(PostNotFound)
    ensures postId in site.posts ==> (r == Err(NoLinks) <==> |links| == 0)
    ensures r.Ok? ==> r.value == SourcesHtml(ExternalLinks(links, siteUrl), t)
  {
    if postId !in site.posts then Err(PostNotFound)
    else if |links| == 0 then Err(NoLinks)
    else Ok(SourcesHtml(ExternalLinks(links, siteUrl), t))
  }

  /** The list for more links is the list for fewer with the new items at
      its end. */
  lemma SourcesAppend(a: seq<Link>, b: seq<Link>, t: SourceTools)
    ensures SourcesHtml(a + b, t) == SourcesOpen + Concat(SourceItems(a, t)) + Concat(SourceItems(b, t)) + SourcesClose
  {
    var la, lb := SourceItems(a, t), SourceItems(b, t);
    forall i | 0 <= i < |a + b| ensures SourceItems(a + b, t)[i] == (la + lb)[i] {
      if i < |a| {
        assert (a + b)[i] == a[i];
      } else {
        assert (a + b)[i] == b[i - |a|];
      }
    }
    assert SourceItems(a + b, t) == la + lb;
    ConcatAppend(la, lb);
    Assoc(SourcesOpen, Concat(la), Concat(lb));
  }

  lemma {:induction false} NoExternalLinks(links: seq<Link>, siteUrl: string)
    requires forall i :: 0 <= i < |links| ==> Contains(links[i].url, siteUrl)
    ensures ExternalLinks(links, siteUrl) == []
    decreases |links|
  {
    if |links| > 0 {
      assert Contains(links[0].url, siteUrl);
      NoExternalLinks(links[1..], siteUrl);
    }
  }

  /** With only internal links the section still appears, with no item. */
  lemma AllInternalEmptyList(site: Site, postId: int, links: seq<Link>, siteUrl: string, t: SourceTools)
    requires postId in site.posts && |links| > 0
    requires forall i :: 0 <= i < |links| ==> Contains(links[i].url, siteUrl)
    ensures GenerateSourcesSection(site, postId, links, siteUrl, t) == Ok(SourcesOpen + SourcesClose)
  {
    NoExternalLinks(links, siteUrl);
    assert SourceItems([], t) == [];
    assert Concat([]) == "";
    assert SourcesHtml([], t) == SourcesOpen + "" + SourcesClose;
    assert SourcesOpen + "" + SourcesClose == SourcesOpen + SourcesClose;
  }

  // ---------------------------------------------------------------- enhance_post

  /** What `enhance_post` reports: each part is present only when it did
      not fail, the updated date only when a notice was added. */
  datatype Enhancements<J> = Enhancements(
    authorBio: Option<string>,
    citations: Option<J>,
    updatedDate: bool,
    expertise: Option<J>)

  /** The environment of one `enhance_post` call: the AI replies, in call
      order, the writes and the tools. */
  datatype EnhanceInputs<J> = EnhanceInputs(
    bioReply: Result<string>, bioWrite: WriteOutcome, escUrl: string -> string,
    citationsReply: Result<string>, iso: string, dateWrite: WriteOutcome,
    expertiseReply: Result<string>, decode: string -> Option<J>)

  function OkOrNone<T>(r: Result<T>): (o: Option<T>)
    ensures o.Some? <==> r.Ok?
    ensures o.Some? ==> o.value == r.value
  {
    if r.Ok? then Some(r.value) else None
  }

  /** `enhance_post($post_id)`: runs the four enhancers in order and keeps
      the parts that did not fail. */
  function EnhancePost<J>(site: Site, postId: int, e: EnhanceInputs<J>): (r: (Enhancements<J>, Site))
    ensures var bio := AddAuthorBioBox(site, postId, e.bioReply, e.bioWrite, e.escUrl);
      r.0.authorBio == (if bio.Ok? then Some(bio.value.0) else None)
    ensures r.0.authorBio.Some? <==> postId in site.posts
    ensures r.0.citations == OkOrNone(JsonSuggestions(site, postId, e.citationsReply, e.decode))
    ensures r.0.expertise == OkOrNone(JsonSuggestions(site, postId, e.expertiseReply, e.decode))
    ensures r.0.updatedDate <==> NeedsNotice(site, postId)
    ensures r.0.updatedDate && e.dateWrite.Stored? ==>
      var p := site.posts[postId];
      GetPost(r.1, postId) == Some(p.(content := UpdatedNotice(e.iso, p.modifiedOn) + "\n\n" + p.content))
    ensures !r.0.updatedDate || e.dateWrite.Refused? ==> r.1.posts == site.posts
    ensures postId !in site.posts ==> r == (Enhancements(None, None, false, None), site)
    ensures forall i :: i != postId ==> GetPost(r.1, i) == GetPost(site, i)
    ensures postId in r.1.posts <==> postId in site.posts
  {
    var bio := AddAuthorBioBox(site, postId, e.bioReply, e.bioWrite, e.escUrl);
    var s1 := if bio.Ok? then bio.value.1 else site;
    var citations := JsonSuggestions(s1, postId, e.citationsReply, e.decode);
    var (dated, s2) := AddUpdatedDate(s1, postId, e.iso, e.dateWrite);
    var expertise := JsonSuggestions(s2, postId, e.expertiseReply, e.decode);
    (Enhancements(if bio.Ok? then Some(bio.value.0) else None, OkOrNone(citations), dated, OkOrNone(expertise)), s2)
  }
}
