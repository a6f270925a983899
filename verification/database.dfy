/** The plugin's own tables (issues, fixes, research cache) and the queries
    over them, after `includes/class-database.php`. Tables are sequences of
    rows in insertion order; auto-increment ids start at 1. */
module Database {
  import opened Common
  import opened Sorting

  datatype Severity = Critical | Warning | Info

  datatype IssueStatus = Pending | Fixed | Ignored | Failed

  /** Issue types. The analyzer emits `missing_title`, the fixer dispatches on
      `missing_title_tag`: they are distinct values here as in the source. */
  datatype IssueKind =
    | MissingMetaDescription
    | MissingTitle
    | ThinContent
    | MissingAltText
    | MissingH1
    | MultipleH1
    | SlowLoadTime
    | MissingTitleTag
    | MissingSchema
    | DuplicateTitle
    | BrokenInternalLink
    | BrokenLink
    | OtherKind(name: string)

  function KindName(k: IssueKind): string {
    match k
    case MissingMetaDescription => "missing_meta_description"
    case MissingTitle => "missing_title"
    case ThinContent => "thin_content"
    case MissingAltText => "missing_alt_text"
    case MissingH1 => "missing_h1"
    case MultipleH1 => "multiple_h1"
    case SlowLoadTime => "slow_load_time"
    case MissingTitleTag => "missing_title_tag"
    case MissingSchema => "missing_schema"
    case DuplicateTitle => "duplicate_title"
    case BrokenInternalLink => "broken_internal_link"
    case BrokenLink => "broken_link"
    case OtherKind(n) => n
  }

  /** A row of the issues table (`post_id` NULL is stored as 0). */
  datatype Issue = Issue(
    id: int,
    auditId: int,
    kind: IssueKind,
    severity: Severity,
    url: string,
    postId: int,
    autoFixable: bool,
    status: IssueStatus,
    priority: int)

  /** A row of the fixes table. `before` is None when nothing was captured (SQL NULL). */
  datatype FixRecord = FixRecord(
    id: int,
    issueId: int,
    kind: IssueKind,
    appliedAt: int,
    appliedBy: int,
    before: Option<string>,
    after: string,
    success: bool,
    errorMessage: Option<string>,
    rollbackAvailable: bool)

  datatype CacheEntry = CacheEntry(data: string, expiresAt: int)

  datatype Tables = Tables(
    issues: seq<Issue>,
    fixes: seq<FixRecord>,
    research: map<string, CacheEntry>)

  /** Fix ids are the auto-increment positions of the rows. */
  predicate FixIdsSequential(fixes: seq<FixRecord>) {
    forall i :: 0 <= i < |fixes| ==> fixes[i].id == i + 1
  }

  /** `SELECT * … WHERE id = %d`: the first row with that id. */
  function GetIssue(t: Tables, id: int): (r: Option<Issue>)
    ensures r.Some? ==> r.value in t.issues && r.value.id == id
    ensures r.None? ==> forall i :: 0 <= i < |t.issues| ==> t.issues[i].id != id
  {
    FindIssue(t.issues, id)
  }

  function FindIssue(rows: seq<Issue>, id: int): (r: Option<Issue>)
    ensures r.Some? ==> r.value in rows && r.value.id == id
    ensures r.None? ==> forall i :: 0 <= i < |rows| ==> rows[i].id != id
  {
    if |rows| == 0 then None
    else if rows[0].id == id then Some(rows[0])
    else FindIssue(rows[1..], id)
  }

  /** The rows an issue query selects: one audit, optionally one status. */
  predicate Selected(i: Issue, auditId: int, status: Option<IssueStatus>) {
    i.auditId == auditId && (status.None? || i.status == status.value)
  }

  function FilterIssues(rows: seq<Issue>, auditId: int, status: Option<IssueStatus>): (r: seq<Issue>)
    ensures forall i :: 0 <= i < |r| ==> Selected(r[i], auditId, status)
    ensures |r| <= |rows|
  {
    if |rows| == 0 then []
    else if Selected(rows[0], auditId, status) then [rows[0]] + FilterIssues(rows[1..], auditId, status)
    else FilterIssues(rows[1..], auditId, status)
  }

  function Priority(i: Issue): int {
    i.priority
  }

  /** `get_issues($audit_id, $status)`: the audit's issues (of that status, if
      given), highest priority score first. */
  function GetIssues(t: Tables, auditId: int, status: Option<IssueStatus>): (r: seq<Issue>)
    ensures SortedDesc(r, Priority)
    ensures multiset(r) == multiset(FilterIssues(t.issues, auditId, status))
    ensures forall i :: 0 <= i < |r| ==> Selected(r[i], auditId, status)
  {
    var r := SortDesc(FilterIssues(t.issues, auditId, status), Priority);
    assert forall i :: 0 <= i < |r| ==> r[i] in multiset(FilterIssues(t.issues, auditId, status));
    r
  }

  /** The audit's issues (of that status, if given) are exactly the rows it
      selects. */
  lemma GetIssuesMembers(t: Tables, auditId: int, status: Option<IssueStatus>)
    ensures forall i :: i in GetIssues(t, auditId, status) <==> i in t.issues && Selected(i, auditId, status)
  {
    SortDescMembers(FilterIssues(t.issues, auditId, status), Priority);
    FilterIssuesWithin(t.issues, auditId, status);
  }

  lemma {:induction false} FilterIssuesWithin(rows: seq<Issue>, auditId: int, status: Option<IssueStatus>)
    ensures forall i :: i in FilterIssues(rows, auditId, status) <==> i in rows && Selected(i, auditId, status)
  {
    if |rows| > 0 {
      FilterIssuesWithin(rows[1..], auditId, status);
      assert forall i :: i in rows <==> i == rows[0] || i in rows[1..];
    }
  }

  /** `update_issue($id, ['status' => …])`: every row with that id takes the
      status, no other row changes. */
  function SetIssueStatus(t: Tables, id: int, status: IssueStatus): (r: Tables)
    ensures |r.issues| == |t.issues|
    ensures forall i :: 0 <= i < |t.issues| ==>
      r.issues[i] == if t.issues[i].id == id then t.issues[i].(status := status) else t.issues[i]
    ensures r.fixes == t.fixes && r.research == t.research
  {
    t.(issues := Restatus(t.issues, id, status))
  }

  function Restatus(rows: seq<Issue>, id: int, status: IssueStatus): (r: seq<Issue>)
    ensures |r| == |rows|
  {
    seq(|rows|, i requires 0 <= i < |rows| => if rows[i].id == id then rows[i].(status := status) else rows[i])
  }

  /** A second status change of the same issue overrides the first. */
  lemma RestatusTwice(rows: seq<Issue>, id: int, first: IssueStatus, second: IssueStatus)
    ensures Restatus(Restatus(rows, id, first), id, second) == Restatus(rows, id, second)
  {
  }

  /** After a status change every lookup finds the same row as before, with
      the new status when it is the changed issue. */
  lemma {:induction false} FindIssueAfterStatus(rows: seq<Issue>, id: int, status: IssueStatus, q: int)
    ensures FindIssue(Restatus(rows, id, status), q) ==
      if q == id && FindIssue(rows, q).Some? then Some(FindIssue(rows, q).value.(status := status))
      else FindIssue(rows, q)
    decreases |rows|
  {
    if |rows| > 0 {
      assert Restatus(rows, id, status)[1..] == Restatus(rows[1..], id, status);
      FindIssueAfterStatus(rows[1..], id, status, q);
    }
  }

  /** `insert_fix`: appends the row under the next auto-increment id and
      returns that id. */
  function InsertFix(t: Tables, row: FixRecord): (r: (Tables, int))
    requires FixIdsSequential(t.fixes)
    ensures FixIdsSequential(r.0.fixes)
    ensures r.1 == |t.fixes| + 1
    ensures r.0.fixes == t.fixes + [row.(id := r.1)]
    ensures r.0.issues == t.issues && r.0.research == t.research
  {
    var id := |t.fixes| + 1;
    (t.(fixes := t.fixes + [row.(id := id)]), id)
  }

  /** `SELECT … WHERE id = %d AND rollback_available = 1`. */
  function FindRollbackFix(fixes: seq<FixRecord>, id: int): (r: Option<FixRecord>)
    ensures r.Some? ==> r.value in fixes && r.value.id == id && r.value.rollbackAvailable
    ensures r.None? ==> forall i :: 0 <= i < |fixes| ==> !(fixes[i].id == id && fixes[i].rollbackAvailable)
  {
    if |fixes| == 0 then None
    else if fixes[0].id == id && fixes[0].rollbackAvailable then Some(fixes[0])
    else FindRollbackFix(fixes[1..], id)
  }

  /** The research cache keeps results for 168 hours. */
  const ResearchLifetime: int := 168 * 3600

  /** `get_cached_research`: the stored data while it has not expired. */
  function GetCachedResearch(t: Tables, topic: string, now: int): (r: Option<string>)
    ensures r.Some? <==> topic in t.research && t.research[topic].expiresAt > now
    ensures r.Some? ==> r.value == t.research[topic].data
  {
    if topic in t.research && t.research[topic].expiresAt > now then Some(t.research[topic].data)
    else None
  }

  /** `cache_research`: stores the data with an expiry 168 hours from now. */
  function CacheResearch(t: Tables, topic: string, data: string, now: int): (r: Tables)
    ensures r.issues == t.issues && r.fixes == t.fixes
    ensures forall k :: k != topic ==> (k in r.research <==> k in t.research)
    ensures forall k :: k != topic && k in t.research ==> r.research[k] == t.research[k]
    ensures forall later :: now <= later < now + ResearchLifetime ==> GetCachedResearch(r, topic, later) == Some(data)
    ensures GetCachedResearch(r, topic, now + ResearchLifetime) == None
  {
    t.(research := t.research[topic := CacheEntry(data, now + ResearchLifetime)])
  }
}
