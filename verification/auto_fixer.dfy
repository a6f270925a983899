/** The auto-fixer (`modules/fixes/class-auto-fixer.php`): generates a fix for
    each issue, has the PM agent review the batch, revises what it sends back,
    applies the approved fixes with a fix record each, and rolls fixes back.
    Issue types are matched by name, as the source's `switch` does. */
module AutoFixer {
  import opened Common
  import opened Sorting
  import opened WordPress
  import opened Database
  import opened AiAnalyzer
  import opened ContextGenerator
  import opened PmAgent
  import Settings

  /** What the fixer reads from its surroundings: whether a site profile is
      stored, the settings, the clock and the current user. */
  datatype Env = Env(hasProfile: bool, settings: Settings.Store, now: int, userId: int)

  /** The calls made while generating fixes: profile-aware generation, the
      image description of an image URL, the 50-word schema excerpt of a body,
      `json_encode` of a schema object, the ISO 8601 ('c') form of a post
      date, and the new-title call of
      `fix_duplicate_title` on a title. */
  datatype Generators = Generators(
    generate: Ask -> Result<string>,
    vision: string -> Result<string>,
    summarize: string -> string,
    encodeSchema: SchemaMarkup -> string,
    isoDate: int -> string,
    retitle: string -> Result<string>)

  /** The calls made after generation: the review call on an entry (attempt
      0 in the batch review, 1 in the re-review), `json_decode` of reviews and
      consistency answers, the revision call, the consistency call, and the
      outcome of the n-th write of the run. */
  datatype Reviewers = Reviewers(
    review: (Entry, nat) -> Result<string>,
    decodeReview: string -> Option<Json<Review>>,
    revise: (string, seq<string>) -> Result<string>,
    consistency: seq<Entry> -> Result<string>,
    decodeConsistency: string -> Option<Json<Consistency>>,
    write: nat -> WriteOutcome)

  const MetaType := "missing_meta_description"
  const ThinType := "thin_content"
  const AltType := "missing_alt_text"
  const TitleTagType := "missing_title_tag"
  const SchemaType := "missing_schema"
  const H1Type := "missing_h1"
  const DuplicateTitleType := "duplicate_title"
  const BrokenLinkType := "broken_internal_link"

  /** `generate_h1($post_id)`: the post's own title. */
  function GenerateH1(site: Site, postId: int): (r: Result<string>)
    ensures postId !in site.posts <==> r == Err(PostNotFound)
    ensures r.Ok? ==> r.value == site.posts[postId].title
  {
    match GetPost(site, postId)
    case None => Err(PostNotFound)
    case Some(post) => Ok(post.title)
  }

  /** `fix_duplicate_title($post_id)`: a new title from the AI, asked about
      the current one; no profile is needed. */
  function FixDuplicateTitle(site: Site, postId: int, retitle: string -> Result<string>): (r: Result<string>)
    ensures postId !in site.posts ==> r == Err(PostNotFound)
    ensures postId in site.posts ==> r == retitle(site.posts[postId].title)
  {
    match GetPost(site, postId)
    case None => Err(PostNotFound)
    case Some(post) => retitle(post.title)
  }

  /** The schema generator's object, encoded as the stored string. */
  function SchemaFix(site: Site, postId: int, g: Generators): (r: Result<string>)
    ensures postId !in site.posts <==> r == Err(PostNotFound)
    ensures r.Ok? ==> exists m :: GenerateSchemaMarkup(site, postId, None, g.summarize, g.isoDate) == Ok(m) && r.value == g.encodeSchema(m)
  {
    match GenerateSchemaMarkup(site, postId, None, g.summarize, g.isoDate)
    case Err(e) => Err(e)
    case Ok(m) => Ok(g.encodeSchema(m))
  }

  /** The issues a fix can be generated for: a handled type, an existing
      post, and a site profile for the four profile-aware generators. */
  predicate Generable(env: Env, site: Site, issue: Issue) {
    var name := KindName(issue.kind);
    name in {MetaType, ThinType, AltType, TitleTagType, SchemaType, H1Type, DuplicateTitleType}
    && issue.postId in site.posts
    && (name in {MetaType, ThinType, AltType, TitleTagType} ==> env.hasProfile)
  }

  /** `generate_fix($issue)`, with the tables threaded through because the
      thin-content expansion may cache research. */
  function GenerateFix(env: Env, site: Site, t: Tables, issue: Issue, g: Generators): (r: (Result<string>, Tables))
    ensures r.1.issues == t.issues && r.1.fixes == t.fixes
    ensures KindName(issue.kind) != ThinType ==> r.1 == t
    ensures KindName(issue.kind) !in {MetaType, ThinType, AltType, TitleTagType, SchemaType, H1Type, DuplicateTitleType, BrokenLinkType}
      ==> r.0 == Err(UnknownIssueType)
    ensures KindName(issue.kind) == BrokenLinkType ==> r.0 == Err(NotImplemented)
    ensures r.0.Ok? ==> Generable(env, site, issue)
    ensures KindName(issue.kind) in {SchemaType, H1Type, DuplicateTitleType} && issue.postId !in site.posts ==>
      r.0 == Err(PostNotFound)
    ensures KindName(issue.kind) == H1Type && issue.postId in site.posts ==> r.0 == Ok(site.posts[issue.postId].title)
  {
    var name := KindName(issue.kind);
    if name == MetaType then (GenerateMetaDescription(env.hasProfile, site, issue.postId, g.generate), t)
    else if name == ThinType then
      var (fix, t1) := ExpandThinContent(env.hasProfile, site, issue.postId, None, env.settings, t, env.now, g.generate);
      assert t1.issues == t.issues && t1.fixes == t.fixes by {
        if env.hasProfile && issue.postId in site.posts && Settings.ContentResearchEnabled(env.settings) {
          var title := site.posts[issue.postId].title;
          assert ResearchTopic(t, title, env.now, g.generate).1.issues == t.issues;
        }
      }
      (fix, t1)
    else if name == AltType then
      (GenerateAltText(env.hasProfile, site, issue.postId, g.vision(issue.url), g.generate), t)
    else if name == TitleTagType then (GenerateTitleTag(env.hasProfile, site, issue.postId, g.generate), t)
    else if name == SchemaType then (SchemaFix(site, issue.postId, g), t)
    else if name == H1Type then (GenerateH1(site, issue.postId), t)
    else if name == DuplicateTitleType then (FixDuplicateTitle(site, issue.postId, g.retitle), t)
    else if name == BrokenLinkType then (Err(NotImplemented), t)
    else (Err(UnknownIssueType), t)
  }

  /** Where a fix of some type is written. */
  datatype Target = MetaTarget(postId: int, key: string) | ContentTarget(postId: int) | NoTarget

  /** The place `apply_fix` writes a fix of type `kind` (and `rollback_fix`
      restores): a meta field, the post body, or nowhere. A missing-alt fix
      goes to the attachment the image URL names, and nowhere when it names
      none. */
  function TargetFor(site: Site, kind: IssueKind, postId: int, url: string): Target {
    var name := KindName(kind);
    if name == MetaType then MetaTarget(postId, MetaDescriptionKey)
    else if name == ThinType then ContentTarget(postId)
    else if name == AltType then
      (if UrlToPostId(site, url) != 0 then MetaTarget(UrlToPostId(site, url), AltTextKey) else NoTarget)
    else if name == TitleTagType then MetaTarget(postId, TitleTagKey)
    else if name == SchemaType then MetaTarget(postId, SchemaKey)
    else if name == H1Type then MetaTarget(postId, H1Key)
    else NoTarget
  }

  function TargetOf(site: Site, issue: Issue): Target {
    TargetFor(site, issue.kind, issue.postId, issue.url)
  }

  /** What is at a target: None when there is no such place. */
  function ValueAt(site: Site, target: Target): Option<string> {
    match target
    case MetaTarget(id, key) => Some(GetMeta(site, id, key))
    case ContentTarget(id) => if id in site.posts then Some(site.posts[id].content) else None
    case NoTarget => None
  }

  /** Writes a value to a target; refused writes and missing targets change nothing. */
  function WriteTo(site: Site, target: Target, value: string, w: WriteOutcome): (r: Site)
    ensures w.Stored? && ValueAt(site, target).Some? ==> ValueAt(r, target) == Some(value)
    ensures w.Refused? || ValueAt(site, target).None? ==> r == site
  {
    match target
    case MetaTarget(id, key) => UpdateMeta(site, id, key, value, w)
    case ContentTarget(id) => UpdateContent(site, id, value, w)
    case NoTarget => site
  }

  /** Writing a target and then writing its earlier non-empty value back
      restores the site. */
  lemma WriteBack(site: Site, target: Target, value: string)
    requires ValueAt(site, target).Some? && ValueAt(site, target).value != ""
    ensures WriteTo(WriteTo(site, target, value, Stored), target, ValueAt(site, target).value, Stored) == site
  {
    match target {
      case MetaTarget(id, key) =>
        assert site.meta[(id, key) := value][(id, key) := site.meta[(id, key)]] == site.meta;
      case ContentTarget(id) =>
        var p := site.posts[id];
        assert site.posts[id := p.(content := value)][id := p] == site.posts;
    }
  }

  /** `get_current_value($issue)`: for the four types whose old value is
      captured, what is at the fix's target now ('' when there is nothing);
      PHP null for every other type. */
  function CurrentValue(site: Site, issue: Issue): (r: Option<string>)
    ensures r.Some? <==> KindName(issue.kind) in {MetaType, ThinType, AltType, TitleTagType}
    ensures r.Some? ==> r.value == ValueAt(site, TargetOf(site, issue)).GetOr("")
  {
    var name := KindName(issue.kind);
    if name == MetaType then Some(GetMeta(site, issue.postId, MetaDescriptionKey))
    else if name == ThinType then Some(if issue.postId in site.posts then site.posts[issue.postId].content else "")
    else if name == AltType then
      var attachment := UrlToPostId(site, issue.url);
      Some(if attachment != 0 then GetMeta(site, attachment, AltTextKey) else "")
    else if name == TitleTagType then Some(GetMeta(site, issue.postId, TitleTagKey))
    else None
  }

  datatype ApplyResult = ApplyResult(issueId: int, fixId: int, success: bool, errorMessage: Option<string>)

  datatype FixApplied = FixApplied(site: Site, tables: Tables, result: ApplyResult)

  /** The message of the error `wp_update_post` returns for a post that does
      not exist. */
  const InvalidPostId := "Invalid post ID."

  /** `apply_fix($issue_id, $issue, $fix)`: one write to the fix's target, one
      fix record with the old value, and the issue marked fixed or failed. */
  function ApplyFix(site: Site, t: Tables, issueId: int, issue: Issue, fix: string, w: WriteOutcome, env: Env): (r: FixApplied)
    requires FixIdsSequential(t.fixes)
    ensures r.result.success <==> w.Stored? && ValueAt(site, TargetOf(site, issue)).Some?
    ensures r.result.success ==> ValueAt(r.site, TargetOf(site, issue)) == Some(fix)
    ensures !r.result.success ==> r.site == site
    ensures KindName(issue.kind) !in {MetaType, ThinType, AltType, TitleTagType, SchemaType, H1Type} ==>
      r.result.errorMessage == Some("No apply logic for issue type: " + KindName(issue.kind))
    ensures KindName(issue.kind) == ThinType && ValueAt(site, TargetOf(site, issue)).None? ==>
      r.result.errorMessage == Some(InvalidPostId)
    ensures r.result.errorMessage.Some? ==> !r.result.success
    ensures r.result.issueId == issueId && r.result.fixId == |t.fixes| + 1
    ensures FixIdsSequential(r.tables.fixes)
    ensures r.tables.fixes == t.fixes + [FixRecord(|t.fixes| + 1, issueId, issue.kind, env.now, env.userId,
      CurrentValue(site, issue), fix, r.result.success, r.result.errorMessage, Truthy(CurrentValue(site, issue)))]
    ensures |r.tables.issues| == |t.issues| && r.tables.research == t.research
    ensures forall i :: 0 <= i < |t.issues| ==>
      r.tables.issues[i] == (if t.issues[i].id == issueId
        then t.issues[i].(status := if r.result.success then Fixed else IssueStatus.Failed)
        else t.issues[i])
  {
    var before := CurrentValue(site, issue);
    var target := TargetOf(site, issue);
    var name := KindName(issue.kind);
    var success := w.Stored? && ValueAt(site, target).Some?;
    var message :=
      if name == ThinType && ValueAt(site, target).None? then Some(InvalidPostId)
      else if name == ThinType && w.Refused? then w.message
      else if name !in {MetaType, ThinType, AltType, TitleTagType, SchemaType, H1Type} then
        Some("No apply logic for issue type: " + name)
      else None;
    var site1 := WriteTo(site, target, fix, w);
    var record := FixRecord(0, issueId, issue.kind, env.now, env.userId, before, fix, success, message, Truthy(before));
    var (t1, fixId) := InsertFix(t, record);
    var t2 := SetIssueStatus(t1, issueId, if success then Fixed else IssueStatus.Failed);
    FixApplied(if success then site1 else site, t2, ApplyResult(issueId, fixId, success, message))
  }

  /** A fix record can be rolled back exactly when the old value captured
      before the fix was non-empty, which never holds for schema, H1 and
      title-less types. */
  lemma RollbackAvailability(site: Site, t: Tables, issueId: int, issue: Issue, fix: string, w: WriteOutcome, env: Env)
    requires FixIdsSequential(t.fixes)
    ensures var rec := ApplyFix(site, t, issueId, issue, fix, w, env).tables.fixes[|t.fixes|];
      rec.rollbackAvailable <==> Truthy(CurrentValue(site, issue))
    ensures KindName(issue.kind) !in {MetaType, ThinType, AltType, TitleTagType} ==>
      !ApplyFix(site, t, issueId, issue, fix, w, env).tables.fixes[|t.fixes|].rollbackAvailable
  {
  }

  datatype RollbackRun = RollbackRun(site: Site, tables: Tables, outcome: Result<bool>)

  /** `rollback_fix($fix_id)`: the fix must exist with rollback available and
      its issue must exist; then the old value goes back for meta
      description, thin content and alt text fixes (no other type is
      restored) and a successful restore makes the issue pending again. No
      fix record is written. */
  function Rollback(site: Site, t: Tables, fixId: int, w: WriteOutcome): (r: RollbackRun)
    ensures FindRollbackFix(t.fixes, fixId).None? ==> r == RollbackRun(site, t, Err(FixNotFound))
    ensures r.outcome == Err(IssueNotFound) <==>
      FindRollbackFix(t.fixes, fixId).Some? && GetIssue(t, FindRollbackFix(t.fixes, fixId).value.issueId).None?
    ensures r.outcome.Ok? ==> r.tables.fixes == t.fixes && r.tables.research == t.research
    ensures r.outcome == Ok(false) || r.outcome.Err? ==> r.site == site && r.tables == t
    ensures r.outcome == Ok(true) ==>
      var fix := FindRollbackFix(t.fixes, fixId).value;
      var issue := GetIssue(t, fix.issueId).value;
      KindName(fix.kind) in {MetaType, ThinType, AltType}
      && ValueAt(r.site, TargetFor(site, fix.kind, issue.postId, issue.url)) == Some(fix.before.GetOr(""))
      && r.tables == SetIssueStatus(t, fix.issueId, Pending)
  {
    match FindRollbackFix(t.fixes, fixId)
    case None => RollbackRun(site, t, Err(FixNotFound))
    case Some(fix) =>
      match GetIssue(t, fix.issueId)
      case None => RollbackRun(site, t, Err(IssueNotFound))
      case Some(issue) =>
        var target := TargetFor(site, fix.kind, issue.postId, issue.url);
        var restorable := KindName(fix.kind) in {MetaType, ThinType, AltType};
        var success := restorable && w.Stored? && ValueAt(site, target).Some?;
        if success then
          RollbackRun(WriteTo(site, target, fix.before.GetOr(""), w), SetIssueStatus(t, fix.issueId, Pending), Ok(true))
        else RollbackRun(site, t, Ok(false))
  }

  /** A fix record of id `n` in a sequentially numbered table is the n-th row. */
  lemma FindSequentialFix(fixes: seq<FixRecord>, n: int)
    requires FixIdsSequential(fixes) && 1 <= n <= |fixes| && fixes[n - 1].rollbackAvailable
    ensures FindRollbackFix(fixes, n) == Some(fixes[n - 1])
  {
    var r := FindRollbackFix(fixes, n);
    if r.Some? {
      var k :| 0 <= k < |fixes| && fixes[k] == r.value;
      assert fixes[k].id == k + 1;
    }
  }

  /** Applying a meta description, thin content or alt text fix over a
      non-empty old value and then rolling that fix back restores the site
      exactly and leaves the issue pending. */
  lemma ApplyThenRollback(site: Site, t: Tables, issue: Issue, fix: string, env: Env)
    requires FixIdsSequential(t.fixes)
    requires GetIssue(t, issue.id) == Some(issue)
    requires KindName(issue.kind) in {MetaType, ThinType, AltType}
    requires Truthy(CurrentValue(site, issue))
    ensures var a := ApplyFix(site, t, issue.id, issue, fix, Stored, env);
      a.result.success
      && Rollback(a.site, a.tables, a.result.fixId, Stored).outcome == Ok(true)
      && Rollback(a.site, a.tables, a.result.fixId, Stored).site == site
      && GetIssue(Rollback(a.site, a.tables, a.result.fixId, Stored).tables, issue.id) == Some(issue.(status := Pending))
  {
    var a := ApplyFix(site, t, issue.id, issue, fix, Stored, env);
    var target := TargetOf(site, issue);
    assert ValueAt(site, target).Some?;
    var fixes := a.tables.fixes;
    FindSequentialFix(fixes, a.result.fixId);
    var rec := fixes[|t.fixes|];
    assert rec.issueId == issue.id && rec.before == CurrentValue(site, issue);
    FindIssueAfterStatus(t.issues, issue.id, Fixed, issue.id);
    assert GetIssue(a.tables, issue.id) == Some(issue.(status := Fixed));
    assert TargetOf(a.site, issue) == target;
    WriteBack(site, target, fix);
    RestatusTwice(t.issues, issue.id, Fixed, Pending);
    FindIssueAfterStatus(t.issues, issue.id, Pending, issue.id);
  }

  /** The review entry of a generated fix. */
  function Proposal(id: int, issue: Issue, fix: string): Entry {
    Entry(id, Some(issue), Some(fix))
  }

  function IssueIds(es: seq<Entry>): (r: seq<int>)
    ensures |r| == |es|
    ensures forall i :: 0 <= i < |es| ==> r[i] == es[i].issueId
  {
    if |es| == 0 then [] else [es[0].issueId] + IssueIds(es[1..])
  }

  /** `a` is `b` with some entries left out, the rest in their order. */
  predicate Subsequence(a: seq<int>, b: seq<int>)
    decreases |b|
  {
    |a| == 0 || (|b| > 0 && ((a[0] == b[0] && Subsequence(a[1..], b[1..])) || Subsequence(a, b[1..])))
  }

  /** Putting the first entry of `b`, or nothing, in front of a subsequence of
      the rest of `b` gives a subsequence of `b`. */
  lemma SubsequenceCons(head: seq<int>, rest: seq<int>, b: seq<int>)
    requires |b| > 0 && Subsequence(rest, b[1..])
    requires head == [] || head == [b[0]]
    ensures Subsequence(head + rest, b)
  {
    if head == [] {
      assert head + rest == rest;
    } else {
      assert (head + rest)[1..] == rest;
    }
  }

  /** Step 1 of `execute_fixes`: an id whose issue is missing is skipped, and
      so is an issue whose fix generation fails; the rest become entries, in
      id order. Only the research cache can change. */
  function Propose(env: Env, site: Site, t: Tables, ids: seq<int>, g: Generators): (r: (seq<Entry>, Tables))
    ensures r.1.issues == t.issues && r.1.fixes == t.fixes
    ensures |r.0| <= |ids|
    ensures Subsequence(IssueIds(r.0), ids)
    ensures forall i :: 0 <= i < |r.0| ==>
      r.0[i].issue == GetIssue(t, r.0[i].issueId) && r.0[i].issue.Some? && r.0[i].fix.Some?
      && Generable(env, site, r.0[i].issue.value)
  {
    ProposeFacts(env, site, t, ids, g);
    Thread(ProposeStep(env, site, g), t, ids)
  }

  /** One id of step 1, as a step over the tables. */
  function ProposeStep(env: Env, site: Site, g: Generators): (Tables, int) -> (seq<Entry>, Tables) {
    (t, id) => ProposeOne(env, site, t, id, g)
  }

  /** A `foreach` over ids: `step` runs on each in order, the tables threaded
      from one to the next and the entries collected. */
  function Thread(step: (Tables, int) -> (seq<Entry>, Tables), t: Tables, ids: seq<int>): (seq<Entry>, Tables)
    decreases |ids|
  {
    if |ids| == 0 then ([], t)
    else
      var one := step(t, ids[0]);
      var rest := Thread(step, one.1, ids[1..]);
      (one.0 + rest.0, rest.1)
  }

  lemma {:induction false} ProposeFacts(env: Env, site: Site, t: Tables, ids: seq<int>, g: Generators)
    ensures var r := Thread(ProposeStep(env, site, g), t, ids);
      r.1.issues == t.issues && r.1.fixes == t.fixes && |r.0| <= |ids| && Subsequence(IssueIds(r.0), ids)
      && forall i :: 0 <= i < |r.0| ==>
        r.0[i].issue == GetIssue(t, r.0[i].issueId) && r.0[i].issue.Some? && r.0[i].fix.Some?
        && Generable(env, site, r.0[i].issue.value)
    decreases |ids|
  {
    if |ids| > 0 {
      var one := ProposeOne(env, site, t, ids[0], g);
      ProposeFacts(env, site, one.1, ids[1..], g);
      var rest := Thread(ProposeStep(env, site, g), one.1, ids[1..]);
      IssueIdsAppend(one.0, rest.0);
      SubsequenceCons(IssueIds(one.0), IssueIds(rest.0), ids);
    }
  }

  /** One id of step 1: no entry when the issue is missing or its fix
      generation fails. */
  function ProposeOne(env: Env, site: Site, t: Tables, id: int, g: Generators): (r: (seq<Entry>, Tables))
    ensures r.1.issues == t.issues && r.1.fixes == t.fixes
    ensures |r.0| <= 1
    ensures |r.0| == 1 ==>
      (r.0[0].issueId == id && r.0[0].issue == GetIssue(t, id) && r.0[0].fix.Some? &&
       GetIssue(t, id).Some? && Generable(env, site, GetIssue(t, id).value))
    ensures GetIssue(t, id).None? ==> r == ([], t)
    ensures GetIssue(t, id).Some? ==>
      var gen := GenerateFix(env, site, t, GetIssue(t, id).value, g);
      r.1 == gen.1 && (|r.0| == 1 <==> gen.0.Ok?)
      && (gen.0.Ok? ==> r.0[0] == Proposal(id, GetIssue(t, id).value, gen.0.value))
  {
    match GetIssue(t, id)
    case None => ([], t)
    case Some(issue) =>
      var (fix, t2) := GenerateFix(env, site, t, issue, g);
      (if fix.Ok? then [Proposal(id, issue, fix.value)] else [], t2)
  }

  lemma IssueIdsAppend(a: seq<Entry>, b: seq<Entry>)
    ensures IssueIds(a + b) == IssueIds(a) + IssueIds(b)
  {
  }

  /** Threading over `a + b` threads over `a`, then over `b` from the
      tables `a` left behind. */
  lemma {:induction false} ThreadAppend(step: (Tables, int) -> (seq<Entry>, Tables), t: Tables, a: seq<int>, b: seq<int>)
    ensures var first := Thread(step, t, a);
      var second := Thread(step, first.1, b);
      Thread(step, t, a + b) == (first.0 + second.0, second.1)
    decreases |a|
  {
    if |a| > 0 {
      var one := step(t, a[0]);
      var tail := Thread(step, one.1, a[1..]);
      var second := Thread(step, tail.1, b);
      ThreadAppend(step, one.1, a[1..], b);
      assert (a + b)[0] == a[0] && (a + b)[1..] == a[1..] + b;
      assert one.0 + (tail.0 + second.0) == (one.0 + tail.0) + second.0;
    } else {
      assert a + b == b;
      assert [] + Thread(step, t, b).0 == Thread(step, t, b).0;
    }
  }

  /** The entries of the first k + 1 ids are those of the first k, then
      what the k-th id gives on the tables the earlier ids left behind; each
      such list is a prefix of the whole. */
  lemma ProposeAt(env: Env, site: Site, t: Tables, ids: seq<int>, g: Generators, k: int)
    requires 0 <= k < |ids|
    ensures var before := Propose(env, site, t, ids[..k], g);
      var upTo := Propose(env, site, t, ids[..k + 1], g).0;
      before.0 <= upTo <= Propose(env, site, t, ids, g).0
      && upTo == before.0 + ProposeOne(env, site, before.1, ids[k], g).0
  {
    var step := ProposeStep(env, site, g);
    assert ids[..k + 1] == ids[..k] + [ids[k]];
    ThreadAppend(step, t, ids[..k], [ids[k]]);
    assert ids == ids[..k + 1] + ids[k + 1..];
    ThreadAppend(step, t, ids[..k + 1], ids[k + 1..]);
  }

  /** The k-th id gets an entry, right after the entries of the earlier ids,
      exactly when its issue exists and its fix generation on the tables the
      earlier ids left behind succeeds. */
  lemma ProposeComplete(env: Env, site: Site, t: Tables, ids: seq<int>, g: Generators, k: int)
    requires 0 <= k < |ids|
    ensures var before := Propose(env, site, t, ids[..k], g);
      var r := Propose(env, site, t, ids, g).0;
      var issue := GetIssue(t, ids[k]);
      var ok := issue.Some? && GenerateFix(env, site, before.1, issue.value, g).0.Ok?;
      (ok ==> |before.0| < |r|
              && r[|before.0|] == Proposal(ids[k], issue.value, GenerateFix(env, site, before.1, issue.value, g).0.value))
      && (!ok ==> Propose(env, site, t, ids[..k + 1], g).0 == before.0)
  {
    var before := Propose(env, site, t, ids[..k], g);
    ProposeAt(env, site, t, ids, g, k);
    assert GetIssue(before.1, ids[k]) == GetIssue(t, ids[k]);
  }

  /** `revise_fix($original_fix, $improvements)`: with no improvements the
      original comes back without a call. */
  function ReviseFix(original: string, improvements: seq<string>, revise: (string, seq<string>) -> Result<string>): (r: Result<string>)
    ensures |improvements| == 0 ==> r == Ok(original)
    ensures |improvements| > 0 ==> r == revise(original, improvements)
  {
    if |improvements| == 0 then Ok(original) else revise(original, improvements)
  }

  /** The review function of a run: `review_fix` on the entry's review call. */
  function ReviewOf(env: Env, rv: Reviewers, attempt: nat): Entry -> Review {
    e => ReviewFix(env.hasProfile, rv.review(e, attempt), rv.decodeReview)
  }

  /** Step 3 of `execute_fixes`: each fix sent back is revised once and
      re-reviewed once; it joins the approved list, with the revised text,
      only when the re-review approves it at the threshold. */
  function Revisit(needs: seq<Revision>, env: Env, threshold: int, rv: Reviewers): (r: seq<Entry>)
    requires forall i :: 0 <= i < |needs| ==> needs[i].entry.issue.Some? && needs[i].entry.fix.Some?
    ensures |r| <= |needs|
    ensures Subsequence(IssueIds(r), IssueIds(RevisionEntries(needs)))
    ensures forall i :: 0 <= i < |r| ==> r[i].issue.Some? && r[i].fix.Some?
    ensures forall i :: 0 <= i < |r| ==> Classify(ReviewOf(env, rv, 1)(r[i]), threshold) == Approved
    decreases |needs|
  {
    if |needs| == 0 then []
    else
      var head := RevisitOne(needs[0], env, threshold, rv);
      var rest := Revisit(needs[1..], env, threshold, rv);
      RevisitIds(needs, head, rest);
      head + rest
  }

  lemma RevisitIds(needs: seq<Revision>, head: seq<Entry>, rest: seq<Entry>)
    requires |needs| > 0 && |head| <= 1 && (|head| == 1 ==> head[0].issueId == needs[0].entry.issueId)
    requires Subsequence(IssueIds(rest), IssueIds(RevisionEntries(needs[1..])))
    ensures Subsequence(IssueIds(head + rest), IssueIds(RevisionEntries(needs)))
  {
    IssueIdsAppend(head, rest);
    assert IssueIds(RevisionEntries(needs))[1..] == IssueIds(RevisionEntries(needs[1..]));
    SubsequenceCons(IssueIds(head), IssueIds(rest), IssueIds(RevisionEntries(needs)));
  }

  /** `e` is the revised form of the fix sent back in `need`, and its
      re-review approves it at the threshold. */
  predicate Promoted(need: Revision, e: Entry, env: Env, threshold: int, rv: Reviewers) {
    need.entry.fix.Some?
    && var improved := ReviseFix(need.entry.fix.value, need.improvements, rv.revise);
    improved.Ok? && e == need.entry.(fix := Some(improved.value))
    && Classify(ReviewOf(env, rv, 1)(e), threshold) == Approved
  }

  /** An entry comes out of step 3 exactly when it is the approved revision
      of one of the fixes sent back. */
  lemma {:induction false} RevisitMember(needs: seq<Revision>, env: Env, threshold: int, rv: Reviewers, e: Entry)
    requires forall i :: 0 <= i < |needs| ==> needs[i].entry.issue.Some? && needs[i].entry.fix.Some?
    ensures e in Revisit(needs, env, threshold, rv) <==> exists i :: 0 <= i < |needs| && Promoted(needs[i], e, env, threshold, rv)
    decreases |needs|
  {
    if |needs| > 0 {
      RevisitMember(needs[1..], env, threshold, rv, e);
      if exists i :: 0 <= i < |needs| && Promoted(needs[i], e, env, threshold, rv) {
        var i :| 0 <= i < |needs| && Promoted(needs[i], e, env, threshold, rv);
        if i > 0 {
          assert needs[1..][i - 1] == needs[i];
        }
      }
      if exists i :: 0 <= i < |needs| - 1 && Promoted(needs[1..][i], e, env, threshold, rv) {
        var i :| 0 <= i < |needs| - 1 && Promoted(needs[1..][i], e, env, threshold, rv);
        assert needs[i + 1] == needs[1..][i];
      }
    }
  }

  /** One fix of step 3: revised, re-reviewed, and kept only when approved. */
  function RevisitOne(need: Revision, env: Env, threshold: int, rv: Reviewers): (r: seq<Entry>)
    requires need.entry.issue.Some? && need.entry.fix.Some?
    ensures |r| <= 1
    ensures |r| == 1 ==>
      (r[0].issueId == need.entry.issueId && r[0].issue.Some? && r[0].fix.Some? &&
       Classify(ReviewOf(env, rv, 1)(r[0]), threshold) == Approved)
    ensures var improved := ReviseFix(need.entry.fix.value, need.improvements, rv.revise);
      |r| == 1 ==> improved.Ok? && r[0] == need.entry.(fix := Some(improved.value))
    ensures var improved := ReviseFix(need.entry.fix.value, need.improvements, rv.revise);
      improved.Ok? && Classify(ReviewOf(env, rv, 1)(need.entry.(fix := Some(improved.value))), threshold) == Approved
      ==> |r| == 1
  {
    var e := need.entry;
    var improved := ReviseFix(e.fix.value, need.improvements, rv.revise);
    if improved.Ok? && Classify(ReviewOf(env, rv, 1)(e.(fix := Some(improved.value))), threshold) == Approved
    then [e.(fix := Some(improved.value))] else []
  }

  predicate Applicable(e: Entry) {
    e.issue.Some? && e.fix.Some?
  }

  datatype Applied = Applied(site: Site, tables: Tables, results: seq<ApplyResult>)

  /** Step 5 of `execute_fixes`: every approved fix is applied in order, the
      k-th write of the run taking outcome `write(k)`. */
  function ApplyAll(site: Site, t: Tables, fixes: seq<Entry>, env: Env, write: nat -> WriteOutcome, k: nat): (r: Applied)
    requires FixIdsSequential(t.fixes)
    requires forall i :: 0 <= i < |fixes| ==> Applicable(fixes[i])
    ensures FixIdsSequential(r.tables.fixes)
    ensures |r.results| == |fixes|
    ensures |r.tables.fixes| == |t.fixes| + |fixes| && r.tables.fixes[..|t.fixes|] == t.fixes
    ensures forall i :: 0 <= i < |fixes| ==>
      r.results[i].issueId == fixes[i].issueId && r.results[i].fixId == |t.fixes| + 1 + i
    ensures r.tables.research == t.research && |r.tables.issues| == |t.issues|
    ensures |fixes| == 0 ==> r == Applied(site, t, [])
    decreases |fixes|
  {
    if |fixes| == 0 then Applied(site, t, [])
    else
      var e := fixes[0];
      assert Applicable(e);
      var a := ApplyFix(site, t, e.issueId, e.issue.value, e.fix.value, write(k), env);
      var rest := ApplyAll(a.site, a.tables, fixes[1..], env, write, k + 1);
      assert rest.tables.fixes[..|t.fixes|] == rest.tables.fixes[..|a.tables.fixes|][..|t.fixes|];
      Applied(rest.site, rest.tables, [a.result] + rest.results)
  }

  /** What `execute_fixes` returns. `applied` counts the approved fixes,
      whether or not their writes succeeded. */
  datatype Report =
    | NoValidFixes
    | Ran(applied: nat, rejected: nat, revised: nat, consistencyScore: int, results: seq<ApplyResult>, summary: BatchStats)

  datatype Run = Run(report: Report, site: Site, tables: Tables)

  /** The approved list after revisions: first-round approvals, then the
      revised fixes the re-review approved. */
  function FinalApproved(proposals: seq<Entry>, env: Env, rv: Reviewers): (r: seq<Entry>)
    requires forall i :: 0 <= i < |proposals| ==> Applicable(proposals[i])
    ensures forall i :: 0 <= i < |r| ==> Applicable(r[i])
    ensures var b := ReviewAll(proposals, Settings.PmQualityThreshold(env.settings), ReviewOf(env, rv, 0)).batch;
      |b.approved| <= |r| <= |b.approved| + |b.needsRevision|
  {
    var threshold := Settings.PmQualityThreshold(env.settings);
    var reviewed := ReviewAll(proposals, threshold, ReviewOf(env, rv, 0));
    ReviewedApplicable(proposals, threshold, ReviewOf(env, rv, 0));
    reviewed.batch.approved + Revisit(reviewed.batch.needsRevision, env, threshold, rv)
  }

  /** The fixes sent back in the batch are the proposals with that verdict,
      each recorded with its own review and improvements. */
  lemma SentBack(proposals: seq<Entry>, threshold: int, review0: Entry -> Review, env: Env, rv: Reviewers, e: Entry)
    ensures var nr := ReviewAll(proposals, threshold, review0).batch.needsRevision;
      (exists i :: 0 <= i < |nr| && Promoted(nr[i], e, env, threshold, rv))
      <==> exists p :: p in proposals && VerdictOf(p, threshold, review0) == Some(NeedsRevision)
             && Promoted(Revision(p, review0(p), review0(p).improvements), e, env, threshold, rv)
  {
    var nr := ReviewAll(proposals, threshold, review0).batch.needsRevision;
    if exists i :: 0 <= i < |nr| && Promoted(nr[i], e, env, threshold, rv) {
      var i :| 0 <= i < |nr| && Promoted(nr[i], e, env, threshold, rv);
      SentBackRecord(proposals, threshold, review0, i);
    }
    if exists p :: p in proposals && VerdictOf(p, threshold, review0) == Some(NeedsRevision)
         && Promoted(Revision(p, review0(p), review0(p).improvements), e, env, threshold, rv) {
      var p :| p in proposals && VerdictOf(p, threshold, review0) == Some(NeedsRevision)
         && Promoted(Revision(p, review0(p), review0(p).improvements), e, env, threshold, rv);
      var i := SentBackIndex(proposals, threshold, review0, p);
    }
  }

  /** The i-th fix sent back is a proposal with that verdict, recorded with
      its own review. */
  lemma SentBackRecord(proposals: seq<Entry>, threshold: int, review0: Entry -> Review, i: int)
    requires 0 <= i < |ReviewAll(proposals, threshold, review0).batch.needsRevision|
    ensures var n := ReviewAll(proposals, threshold, review0).batch.needsRevision[i];
      var p := n.entry;
      p in proposals && VerdictOf(p, threshold, review0) == Some(NeedsRevision)
      && n == Revision(p, review0(p), review0(p).improvements)
  {
    var nr := ReviewAll(proposals, threshold, review0).batch.needsRevision;
    RevisionEntriesAt(nr, i);
    SortedIntoMember(proposals, threshold, review0, NeedsRevision, nr[i].entry);
  }

  /** A proposal with that verdict is sent back, recorded with its own
      review. */
  lemma SentBackIndex(proposals: seq<Entry>, threshold: int, review0: Entry -> Review, p: Entry) returns (i: int)
    requires p in proposals && VerdictOf(p, threshold, review0) == Some(NeedsRevision)
    ensures var nr := ReviewAll(proposals, threshold, review0).batch.needsRevision;
      0 <= i < |nr| && nr[i] == Revision(p, review0(p), review0(p).improvements)
  {
    var nr := ReviewAll(proposals, threshold, review0).batch.needsRevision;
    SortedIntoMember(proposals, threshold, review0, NeedsRevision, p);
    i :| 0 <= i < |nr| && RevisionEntries(nr)[i] == p;
    RevisionEntriesAt(nr, i);
  }

  /** The approved list after revisions starts with the first-round
      approvals, and holds exactly the proposals approved at once and the
      approved revisions of the proposals sent back. */
  lemma FinalApprovedMembers(proposals: seq<Entry>, env: Env, rv: Reviewers, e: Entry)
    requires forall i :: 0 <= i < |proposals| ==> Applicable(proposals[i])
    ensures var threshold := Settings.PmQualityThreshold(env.settings);
      var review0 := ReviewOf(env, rv, 0);
      var r := FinalApproved(proposals, env, rv);
      SortedInto(proposals, threshold, review0, Approved) <= r
      && (e in r <==>
            (e in proposals && VerdictOf(e, threshold, review0) == Some(Approved))
            || exists p :: p in proposals && VerdictOf(p, threshold, review0) == Some(NeedsRevision)
                 && Promoted(Revision(p, review0(p), review0(p).improvements), e, env, threshold, rv))
  {
    var threshold := Settings.PmQualityThreshold(env.settings);
    var review0 := ReviewOf(env, rv, 0);
    var reviewed := ReviewAll(proposals, threshold, review0);
    var nr := reviewed.batch.needsRevision;
    ReviewedApplicable(proposals, threshold, review0);
    assert FinalApproved(proposals, env, rv) == reviewed.batch.approved + Revisit(nr, env, threshold, rv);
    SortedIntoMember(proposals, threshold, review0, Approved, e);
    RevisitMember(nr, env, threshold, rv, e);
    SentBack(proposals, threshold, review0, env, rv, e);
  }

  /** Reviewed entries come from the batch, so they carry an issue and a fix. */
  lemma ReviewedApplicable(proposals: seq<Entry>, threshold: int, reviewOf: Entry -> Review)
    requires forall i :: 0 <= i < |proposals| ==> Applicable(proposals[i])
    ensures var b := ReviewAll(proposals, threshold, reviewOf).batch;
      (forall i :: 0 <= i < |b.approved| ==> Applicable(b.approved[i]))
      && (forall i :: 0 <= i < |b.needsRevision| ==> Applicable(b.needsRevision[i].entry))
  {
    var b := ReviewAll(proposals, threshold, reviewOf).batch;
    forall i | 0 <= i < |b.approved| ensures Applicable(b.approved[i]) {
      SortedIntoMember(proposals, threshold, reviewOf, Approved, b.approved[i]);
    }
    forall i | 0 <= i < |b.needsRevision| ensures Applicable(b.needsRevision[i].entry) {
      var e := b.needsRevision[i].entry;
      assert RevisionEntries(b.needsRevision)[i] == e by { RevisionEntriesAt(b.needsRevision, i); }
      SortedIntoMember(proposals, threshold, reviewOf, NeedsRevision, e);
    }
  }

  lemma {:induction false} RevisionEntriesAt(rs: seq<Revision>, i: int)
    requires 0 <= i < |rs|
    ensures RevisionEntries(rs)[i] == rs[i].entry
    decreases i
  {
    if i > 0 {
      RevisionEntriesAt(rs[1..], i - 1);
    }
  }

  /** Steps 2 to 5 of `execute_fixes` on a non-empty batch. */
  function ReviewAndApply(env: Env, site: Site, t: Tables, proposals: seq<Entry>, rv: Reviewers): (r: Run)
    requires FixIdsSequential(t.fixes)
    requires |proposals| > 0 && forall i :: 0 <= i < |proposals| ==> Applicable(proposals[i])
    ensures r.report.Ran?
    ensures |t.fixes| <= |r.tables.fixes|
    ensures FixIdsSequential(r.tables.fixes) && r.tables.fixes[..|t.fixes|] == t.fixes
    ensures r.report.applied == |r.report.results| && |r.tables.fixes| == |t.fixes| + r.report.applied
    ensures var s := r.report.summary;
      s.total == |proposals| && r.report.revised == s.needsRevision && r.report.rejected == s.rejected
      && s.approved <= r.report.applied <= s.approved + s.needsRevision
    ensures !env.hasProfile ==> r.report.consistencyScore == 100
    ensures var approved := FinalApproved(proposals, env, rv);
      r.report.applied == |approved| && r.report.consistencyScore == ConsistencyScore(env, approved, rv)
      && forall i :: 0 <= i < |r.report.results| ==> r.report.results[i].issueId == approved[i].issueId
  {
    var threshold := Settings.PmQualityThreshold(env.settings);
    var reviewed := ReviewAll(proposals, threshold, ReviewOf(env, rv, 0));
    var approved := FinalApproved(proposals, env, rv);
    var consistency := ConsistencyScore(env, approved, rv);
    var applied := ApplyAll(site, t, approved, env, rv.write, 0);
    Run(Ran(|approved|, |reviewed.batch.rejected|, |reviewed.batch.needsRevision|, consistency,
            applied.results, reviewed.stats),
        applied.site, applied.tables)
  }

  /** Step 4 of `execute_fixes`: the consistency score, 100 when the check
      is skipped or gives none. */
  function ConsistencyScore(env: Env, approved: seq<Entry>, rv: Reviewers): (r: int)
    ensures !env.hasProfile ==> r == 100
  {
    EnsureConsistency(env.hasProfile, approved, rv.consistency, rv.decodeConsistency).score.GetOr(100)
  }

  /** `execute_fixes($issue_ids)`. */
  function ExecuteFixes(env: Env, site: Site, t: Tables, ids: seq<int>, g: Generators, rv: Reviewers): (r: Run)
    requires FixIdsSequential(t.fixes)
    ensures r.report.NoValidFixes? <==> |Propose(env, site, t, ids, g).0| == 0
    ensures r.report.NoValidFixes? ==> r.site == site && r.tables.fixes == t.fixes && r.tables.issues == t.issues
    ensures |t.fixes| <= |r.tables.fixes|
    ensures FixIdsSequential(r.tables.fixes) && r.tables.fixes[..|t.fixes|] == t.fixes
    ensures r.report.Ran? ==>
      r.report.applied == |r.report.results| && |r.tables.fixes| == |t.fixes| + r.report.applied
    ensures r.report.Ran? ==>
      var s := r.report.summary;
      0 < s.total == |Propose(env, site, t, ids, g).0| && r.report.revised == s.needsRevision
      && r.report.rejected == s.rejected && s.approved <= r.report.applied <= s.approved + s.needsRevision
    ensures r.report.Ran? && !env.hasProfile ==> r.report.consistencyScore == 100
    ensures r.report.Ran? ==>
      var approved := FinalApproved(Propose(env, site, t, ids, g).0, env, rv);
      r.report.applied == |approved| && r.report.consistencyScore == ConsistencyScore(env, approved, rv)
      && forall i :: 0 <= i < |r.report.results| ==> r.report.results[i].issueId == approved[i].issueId
  {
    var proposed := Propose(env, site, t, ids, g);
    if |proposed.0| == 0 then Run(NoValidFixes, site, proposed.1)
    else ReviewAndApply(env, site, proposed.1, proposed.0, rv)
  }

  /** A partition no entry belongs to is empty. */
  lemma {:induction false} NobodySortedInto(entries: seq<Entry>, threshold: int, reviewOf: Entry -> Review, v: Verdict)
    requires forall i :: 0 <= i < |entries| ==> VerdictOf(entries[i], threshold, reviewOf) != Some(v)
    ensures SortedInto(entries, threshold, reviewOf, v) == []
    decreases |entries|
  {
    if |entries| > 0 {
      NobodySortedInto(entries[1..], threshold, reviewOf, v);
    }
  }

  /** Without a profile every review is the fallback approval at 70. */
  lemma NoProfileReviews(env: Env, rv: Reviewers, attempt: nat, e: Entry)
    requires !env.hasProfile
    ensures ReviewOf(env, rv, attempt)(e) == DefaultReview(NoProfileReason)
  {
    assert ReviewOf(env, rv, attempt)(e) == ReviewFix(env.hasProfile, rv.review(e, attempt), rv.decodeReview);
  }

  /** Without a profile and with a threshold above 70 no re-review approves. */
  lemma {:induction false} NoProfileNoPromotion(needs: seq<Revision>, env: Env, threshold: int, rv: Reviewers)
    requires forall i :: 0 <= i < |needs| ==> needs[i].entry.issue.Some? && needs[i].entry.fix.Some?
    requires !env.hasProfile && threshold > 70
    ensures Revisit(needs, env, threshold, rv) == []
    decreases |needs|
  {
    if |needs| > 0 {
      var e := needs[0].entry;
      var improved := ReviseFix(e.fix.value, needs[0].improvements, rv.revise);
      if improved.Ok? {
        NoProfileReviews(env, rv, 1, e.(fix := Some(improved.value)));
      }
      NoProfileNoPromotion(needs[1..], env, threshold, rv);
    }
  }

  /** Without a site profile and with a quality threshold above 70, a run
      changes no post and writes no fix record: every fix is sent back, every
      revision is re-reviewed at the same 70, and nothing is approved or
      rejected. */
  lemma NoProfileStrictThreshold(env: Env, site: Site, t: Tables, ids: seq<int>, g: Generators, rv: Reviewers)
    requires FixIdsSequential(t.fixes)
    requires !env.hasProfile && Settings.PmQualityThreshold(env.settings) > 70
    ensures var r := ExecuteFixes(env, site, t, ids, g, rv);
      r.site == site && r.tables.fixes == t.fixes && r.tables.issues == t.issues
      && (r.report.Ran? ==> r.report.applied == 0 && r.report.rejected == 0 && r.report.summary.approved == 0)
  {
    var proposed := Propose(env, site, t, ids, g);
    if |proposed.0| > 0 {
      StrictBatch(env, proposed.0, rv);
    }
  }

  /** The batch-level half of `NoProfileStrictThreshold`. */
  lemma StrictBatch(env: Env, proposals: seq<Entry>, rv: Reviewers)
    requires forall i :: 0 <= i < |proposals| ==> Applicable(proposals[i])
    requires !env.hasProfile && Settings.PmQualityThreshold(env.settings) > 70
    ensures FinalApproved(proposals, env, rv) == []
    ensures var b := ReviewAll(proposals, Settings.PmQualityThreshold(env.settings), ReviewOf(env, rv, 0)).batch;
      |b.approved| == 0 && |b.rejected| == 0
  {
    var threshold := Settings.PmQualityThreshold(env.settings);
    var reviewOf := ReviewOf(env, rv, 0);
    forall i | 0 <= i < |proposals| ensures VerdictOf(proposals[i], threshold, reviewOf) == None
      || VerdictOf(proposals[i], threshold, reviewOf) == Some(NeedsRevision) {
      NoProfileReviews(env, rv, 0, proposals[i]);
    }
    NobodySortedInto(proposals, threshold, reviewOf, Approved);
    NobodySortedInto(proposals, threshold, reviewOf, Rejected);
    var reviewed := ReviewAll(proposals, threshold, reviewOf);
    ReviewedApplicable(proposals, threshold, reviewOf);
    NoProfileNoPromotion(reviewed.batch.needsRevision, env, threshold, rv);
  }

  /** Without a site profile and with a threshold of at most 70, every
      reviewable fix is approved at once and applied; none is revised or
      rejected. */
  lemma NoProfileLenientThreshold(env: Env, site: Site, t: Tables, ids: seq<int>, g: Generators, rv: Reviewers)
    requires FixIdsSequential(t.fixes)
    requires !env.hasProfile && Settings.PmQualityThreshold(env.settings) <= 70
    ensures var r := ExecuteFixes(env, site, t, ids, g, rv);
      r.report.Ran? ==>
        r.report.applied == r.report.summary.approved == |Filter(Propose(env, site, t, ids, g).0, Reviewable)|
        && r.report.revised == 0 && r.report.rejected == 0
  {
    var proposed := Propose(env, site, t, ids, g);
    if |proposed.0| > 0 {
      LenientBatch(env, proposed.0, rv);
    }
  }

  /** The batch-level half of `NoProfileLenientThreshold`. */
  lemma LenientBatch(env: Env, proposals: seq<Entry>, rv: Reviewers)
    requires forall i :: 0 <= i < |proposals| ==> Applicable(proposals[i])
    requires !env.hasProfile && Settings.PmQualityThreshold(env.settings) <= 70
    ensures var b := ReviewAll(proposals, Settings.PmQualityThreshold(env.settings), ReviewOf(env, rv, 0)).batch;
      FinalApproved(proposals, env, rv) == b.approved && |b.approved| == |Filter(proposals, Reviewable)|
      && |b.needsRevision| == 0 && |b.rejected| == 0
  {
    var threshold := Settings.PmQualityThreshold(env.settings);
    var reviewOf := ReviewOf(env, rv, 0);
    forall i | 0 <= i < |proposals| ensures VerdictOf(proposals[i], threshold, reviewOf) == None
      || VerdictOf(proposals[i], threshold, reviewOf) == Some(Approved) {
      NoProfileReviews(env, rv, 0, proposals[i]);
    }
    NobodySortedInto(proposals, threshold, reviewOf, NeedsRevision);
    NobodySortedInto(proposals, threshold, reviewOf, Rejected);
    PartitionSizes(proposals, threshold, reviewOf);
    var reviewed := ReviewAll(proposals, threshold, reviewOf);
    assert |reviewed.batch.needsRevision| == 0;
  }

  /** When no fix could be generated the run ends before any review,
      revision, consistency call or write: it is the same whatever those
      calls would have answered. */
  lemma EmptyRunMakesNoReviewCall(env: Env, site: Site, t: Tables, ids: seq<int>, g: Generators, rv1: Reviewers, rv2: Reviewers)
    requires FixIdsSequential(t.fixes)
    requires |Propose(env, site, t, ids, g).0| == 0
    ensures ExecuteFixes(env, site, t, ids, g, rv1) == ExecuteFixes(env, site, t, ids, g, rv2)
  {
  }

  /** Without a site profile only schema, H1 and duplicate-title fixes are
      generated. */
  lemma NoProfileProposals(env: Env, site: Site, t: Tables, ids: seq<int>, g: Generators)
    requires !env.hasProfile
    ensures forall i :: 0 <= i < |Propose(env, site, t, ids, g).0| ==>
      KindName(Propose(env, site, t, ids, g).0[i].issue.value.kind) in {SchemaType, H1Type, DuplicateTitleType}
  {
  }

  function CountSucceeded(fixes: seq<FixRecord>): nat {
    if |fixes| == 0 then 0 else (if fixes[0].success then 1 else 0) + CountSucceeded(fixes[1..])
  }

  function CountFailed(fixes: seq<FixRecord>): nat {
    if |fixes| == 0 then 0 else (if fixes[0].success then 0 else 1) + CountFailed(fixes[1..])
  }

  function CountRollbackable(fixes: seq<FixRecord>): nat {
    if |fixes| == 0 then 0 else (if fixes[0].rollbackAvailable then 1 else 0) + CountRollbackable(fixes[1..])
  }

  /** Every fix record is either a success or a failure. */
  lemma {:induction false} CountsAddUp(fixes: seq<FixRecord>)
    ensures CountSucceeded(fixes) + CountFailed(fixes) == |fixes|
    ensures CountRollbackable(fixes) <= |fixes|
    decreases |fixes|
  {
    if |fixes| > 0 {
      CountsAddUp(fixes[1..]);
    }
  }

  /** `get_fix_stats()`; the success rate is in hundredths of a percent. */
  datatype FixStats = FixStats(total: nat, successful: nat, failed: nat, rollbackAvailable: nat, successRate: int)

  function GetFixStats(fixes: seq<FixRecord>): (r: FixStats)
    ensures r.total == |fixes| && r.successful + r.failed == r.total && r.rollbackAvailable <= r.total
    ensures 0 <= r.successRate <= 10000
    ensures r.total > 0 && r.failed == 0 ==> r.successRate == 10000
    ensures r.successful == 0 ==> r.successRate == 0
    ensures r.total > 0 ==>
      2 * (r.successful * 10000 - r.successRate * r.total) < r.total
      && 2 * (r.successRate * r.total - r.successful * 10000) <= r.total
  {
    CountsAddUp(fixes);
    var total := |fixes|;
    var successful := CountSucceeded(fixes);
    var rate := if total > 0 then (RateBounds(successful, total); RoundDiv(successful * 10000, total)) else 0;
    FixStats(total, successful, CountFailed(fixes), CountRollbackable(fixes), rate)
  }

  /** `round($s / $n * 100, 2)` in hundredths lies between 0 and 100.00 and
      is exact at both ends. */
  lemma RateBounds(s: nat, n: nat)
    requires 0 < n && s <= n
    ensures 0 <= RoundDiv(s * 10000, n) <= 10000
    ensures s == n ==> RoundDiv(s * 10000, n) == 10000
    ensures s == 0 ==> RoundDiv(s * 10000, n) == 0
  {
    var a := s * 10000;
    var r := RoundDiv(a, n);
    assert a <= 10000 * n;
    FactorOrder(r, 10001, n);
    FactorOrder(-1, r, n);
    if s == n {
      FactorOrder(2 * (10000 - r), 1, n);
    }
    if s == 0 {
      FactorOrder(-2 * r, 1, n);
      FactorOrderLe(2 * r, 1, n);
    }
  }

  lemma FactorOrder(x: int, y: int, n: int)
    requires n > 0
    ensures x * n < y * n ==> x < y
  {
    assert y * n - x * n == (y - x) * n;
  }

  lemma FactorOrderLe(x: int, y: int, n: int)
    requires n > 0
    ensures x * n <= y * n ==> x <= y
  {
    assert y * n - x * n == (y - x) * n;
  }
}
