/** The scheduled jobs (`modules/monitoring/class-cron-scheduler.php`): the
    daily audit's counting, storing and gating, the auto-fix selection, the
    weekly profile rebuild, the hourly monitoring alert, the daily cleanup,
    the weekly AI batch, and manual dispatch. The work each job delegates
    (crawling, analysing, fixing, profiling, optimising) is modelled in its
    own module; here its results are inputs and the hand-offs are outputs. */
module CronScheduler {
  import opened Common
  import opened Sorting
  import opened Database
  import Settings
  import TechnicalAnalyzer
  import ChangeTracker
  import AlertSystem
  import WordPress
  import AiSearchFixer

  const Day := 86400

  /** A mail to the notification address. */
  datatype Notice =
    | CriticalIssues(auditId: int, count: nat)
    | Notification(subject: string, message: string)

  // ---------------------------------------------------------------- scheduling

  datatype Recurrence = Hourly | Daily | Weekly

  /** The five hooks and how often each recurs. */
  const Hooks: map<string, Recurrence> := map[
    "sap_daily_audit" := Daily,
    "sap_weekly_profile_update" := Weekly,
    "sap_hourly_monitoring" := Hourly,
    "sap_daily_cleanup" := Daily,
    "sap_weekly_ai_optimization" := Weekly
  ]

  /** `schedule_jobs()`: each hook not yet scheduled is added; a scheduled
      one is left as it is. */
  function ScheduleJobs(scheduled: map<string, Recurrence>): (r: map<string, Recurrence>)
    ensures r.Keys == scheduled.Keys + Hooks.Keys
    ensures forall h :: h in scheduled ==> r[h] == scheduled[h]
    ensures forall h :: h in Hooks && h !in scheduled ==> r[h] == Hooks[h]
  {
    map h | h in scheduled.Keys + Hooks.Keys :: if h in scheduled then scheduled[h] else Hooks[h]
  }

  /** `clear_jobs()`. */
  function ClearJobs(scheduled: map<string, Recurrence>): (r: map<string, Recurrence>)
    ensures r.Keys == scheduled.Keys - Hooks.Keys
    ensures forall h :: h in r ==> r[h] == scheduled[h]
  {
    map h | h in scheduled.Keys - Hooks.Keys :: scheduled[h]
  }

  /** Scheduling twice is scheduling once; clearing after scheduling leaves
      only the other sites' hooks. */
  lemma ScheduleIdempotent(scheduled: map<string, Recurrence>)
    ensures ScheduleJobs(ScheduleJobs(scheduled)) == ScheduleJobs(scheduled)
    ensures ClearJobs(ScheduleJobs(scheduled)) == ClearJobs(scheduled)
  {
  }

  // ---------------------------------------------------------------- daily audit

  datatype AuditRecord = AuditRecord(id: int, date: int, status: string, total: nat, critical: nat, warnings: nat)

  /** Findings of one severity. */
  function CountOf(findings: seq<TechnicalAnalyzer.Finding>, severity: Severity): (n: nat)
    ensures n <= |findings|
  {
    if |findings| == 0 then 0
    else CountOf(findings[..|findings| - 1], severity) + (if findings[|findings| - 1].severity == severity then 1 else 0)
  }

  /** Every finding has one severity. */
  lemma {:induction false} CountsPartition(findings: seq<TechnicalAnalyzer.Finding>)
    ensures CountOf(findings, Critical) + CountOf(findings, Warning) + CountOf(findings, Info) == |findings|
  {
    if |findings| > 0 {
      CountsPartition(findings[..|findings| - 1]);
    }
  }

  /** Lines 91-99: the critical and warning tallies; info findings count
      only towards the total. */
  method CountBySeverity(findings: seq<TechnicalAnalyzer.Finding>) returns (critical: nat, warnings: nat)
    ensures critical == CountOf(findings, Critical) && warnings == CountOf(findings, Warning)
    ensures critical + warnings + CountOf(findings, Info) == |findings|
  {
    critical, warnings := 0, 0;
    for i := 0 to |findings|
      invariant critical == CountOf(findings[..i], Critical)
      invariant warnings == CountOf(findings[..i], Warning)
    {
      assert findings[..i + 1][..i] == findings[..i];
      if findings[i].severity == Critical {
        critical := critical + 1;
      } else if findings[i].severity == Warning {
        warnings := warnings + 1;
      }
    }
    assert findings[..|findings|] == findings;
    CountsPartition(findings);
  }

  /** The stored row of a finding: pending, under its auto-increment id. */
  function IssueRow(auditId: int, id: int, f: TechnicalAnalyzer.Finding): Issue {
    Issue(id, auditId, f.kind, f.severity, f.url, f.postId, f.autoFixable, Pending, f.priority)
  }

  /** Lines 101-113: every finding is stored, in order, ids counting up
      from `firstId`. */
  function StoreFindings(issues: seq<Issue>, auditId: int, firstId: int, findings: seq<TechnicalAnalyzer.Finding>): (r: seq<Issue>)
    ensures |r| == |issues| + |findings| && r[..|issues|] == issues
    ensures forall k :: 0 <= k < |findings| ==>
      var row := r[|issues| + k];
      row.auditId == auditId && row.status == Pending && row.id == firstId + k &&
      row.kind == findings[k].kind && row.severity == findings[k].severity &&
      row.autoFixable == findings[k].autoFixable && row.priority == findings[k].priority
  {
    issues + seq(|findings|, k requires 0 <= k < |findings| => IssueRow(auditId, firstId + k, findings[k]))
  }

  predicate AutoFixable(i: Issue) {
    i.autoFixable
  }

  /** Lines 275-281: the audit's pending issues, highest priority first,
      the auto-fixable ones, the first `maxFixes` of them (a negative limit
      drops that many from the end, as `array_slice` does). */
  function SelectAutoFix(t: Tables, auditId: int, maxFixes: int): (r: seq<Issue>)
    ensures maxFixes >= 0 ==> |r| <= maxFixes
    ensures forall k :: 0 <= k < |r| ==> r[k] in t.issues && Selected(r[k], auditId, Some(Pending)) && r[k].autoFixable
    ensures SortedDesc(r, Priority)
  {
    var pending := GetIssues(t, auditId, Some(Pending));
    var fixable := Filter(pending, AutoFixable);
    FilterSorted(pending, AutoFixable, Priority);
    GetIssuesMembers(t, auditId, Some(Pending));
    var r := SliceHead(fixable, maxFixes);
    assert forall k :: 0 <= k < |r| ==> r[k] == fixable[k];
    r
  }

  /** When there are no more than `maxFixes` of them, every pending
      auto-fixable issue of the audit is handed to the fixer. */
  lemma FewAreAllSelected(t: Tables, auditId: int, maxFixes: int, x: Issue)
    requires x in t.issues && Selected(x, auditId, Some(Pending)) && x.autoFixable
    requires |Filter(GetIssues(t, auditId, Some(Pending)), AutoFixable)| <= maxFixes
    ensures x in SelectAutoFix(t, auditId, maxFixes)
  {
    var pending := GetIssues(t, auditId, Some(Pending));
    GetIssuesMembers(t, auditId, Some(Pending));
    FilterMember(pending, AutoFixable, x);
  }

  /** A pending, auto-fixable issue of the audit that is left out was
      crowded out: with a non-negative limit the selection is full, and every
      selected issue ranks at least as high as it. */
  lemma LeftOutRanksLower(t: Tables, auditId: int, maxFixes: int, x: Issue)
    requires x in t.issues && Selected(x, auditId, Some(Pending)) && x.autoFixable
    requires x !in SelectAutoFix(t, auditId, maxFixes)
    ensures maxFixes >= 0 ==> |SelectAutoFix(t, auditId, maxFixes)| == maxFixes
    ensures forall k :: 0 <= k < |SelectAutoFix(t, auditId, maxFixes)| ==>
      Priority(SelectAutoFix(t, auditId, maxFixes)[k]) >= Priority(x)
  {
    var pending := GetIssues(t, auditId, Some(Pending));
    var fixable := Filter(pending, AutoFixable);
    var r := SelectAutoFix(t, auditId, maxFixes);
    GetIssuesMembers(t, auditId, Some(Pending));
    FilterMember(pending, AutoFixable, x);
    FilterSorted(pending, AutoFixable, Priority);
    assert r == fixable[..|r|];
    var j :| 0 <= j < |fixable| && fixable[j] == x;
    assert j >= |r|;
    forall k | 0 <= k < |r| ensures Priority(r[k]) >= Priority(x) {
      assert r[k] == fixable[k];
    }
  }

  function Ids(rows: seq<Issue>): (r: seq<int>)
    ensures |r| == |rows| && forall k :: 0 <= k < |rows| ==> r[k] == rows[k].id
  {
    seq(|rows|, k requires 0 <= k < |rows| => rows[k].id)
  }

  /** `trigger_auto_fix($audit_id)`: the ids the fixer is called with, or
      None when there are none and the fixer is not called. */
  function TriggerAutoFix(settings: Settings.Store, t: Tables, auditId: int): (r: Option<seq<int>>)
    ensures r.None? <==> SelectAutoFix(t, auditId, Settings.MaxFixesPerRun(settings)) == []
    ensures r.Some? ==> r.value == Ids(SelectAutoFix(t, auditId, Settings.MaxFixesPerRun(settings)))
  {
    var rows := SelectAutoFix(t, auditId, Settings.MaxFixesPerRun(settings));
    if rows == [] then None else Some(Ids(rows))
  }

  predicate AutoAuditEnabled(settings: Settings.Store) {
    Settings.BoolCast(Settings.Get(settings, "auto_audit_enabled", Settings.VBool(false)))
  }

  /** `auto_audit_enabled` is not among the defaults: a fresh install does
      not audit on its own. */
  lemma FreshInstallDoesNotAudit()
    ensures !AutoAuditEnabled(Settings.Load(map[]))
  {
    assert "auto_audit_enabled" !in Settings.Load(map[]);
  }

  datatype DailyOutcome =
    | AuditDisabled
    | AuditCompleted(audit: AuditRecord, tables: Tables, notices: seq<Notice>, fixerIds: Option<seq<int>>)

  /** `run_daily_audit()`: `findings` is what the analyzer reports for the
      new audit `auditId`, `firstIssueId` the issues table's next id. The
      critical mail goes out exactly when something critical was found, and
      the fixer runs only when enabled and given something to fix. */
  method RunDailyAudit(settings: Settings.Store, t: Tables, auditId: int, firstIssueId: int,
                       findings: seq<TechnicalAnalyzer.Finding>, now: int) returns (r: DailyOutcome)
    ensures r.AuditDisabled? <==> !AutoAuditEnabled(settings)
    ensures r.AuditCompleted? ==>
      var a := r.audit;
      a.id == auditId && a.status == "completed" && a.total == |findings| &&
      a.critical == CountOf(findings, Critical) && a.warnings == CountOf(findings, Warning) &&
      a.critical + a.warnings <= a.total
    ensures r.AuditCompleted? ==>
      r.tables == t.(issues := StoreFindings(t.issues, auditId, firstIssueId, findings))
    ensures r.AuditCompleted? ==>
      (r.notices != [] <==> r.audit.critical > 0) && (r.notices != [] ==> r.notices == [CriticalIssues(auditId, r.audit.critical)])
    ensures r.AuditCompleted? ==>
      (r.fixerIds.Some? <==> Settings.AutoFixEnabled(settings) && SelectAutoFix(r.tables, auditId, Settings.MaxFixesPerRun(settings)) != [])
    ensures r.AuditCompleted? && r.fixerIds.Some? ==>
      r.fixerIds.value == Ids(SelectAutoFix(r.tables, auditId, Settings.MaxFixesPerRun(settings)))
  {
    if !AutoAuditEnabled(settings) {
      return AuditDisabled;
    }
    var critical, warnings := CountBySeverity(findings);
    var tables := t.(issues := StoreFindings(t.issues, auditId, firstIssueId, findings));
    var audit := AuditRecord(auditId, now, "completed", |findings|, critical, warnings);
    var notices := if critical > 0 then [CriticalIssues(auditId, critical)] else [];
    var fixerIds := if Settings.AutoFixEnabled(settings) then TriggerAutoFix(settings, tables, auditId) else None;
    r := AuditCompleted(audit, tables, notices, fixerIds);
  }

  // ---------------------------------------------------------------- profile

  const NeverUpdatedDays := 999

  /** Lines 154-157: the profile is rebuilt when it was never stamped
      (treated as 999 days old) or the stamp is a week old. `parse` is
      `strtotime`; a stamp it cannot read counts as the epoch. */
  predicate ProfileDue(lastUpdated: string, parse: string -> Option<int>, now: int) {
    PhpEmpty(lastUpdated) || now - parse(lastUpdated).GetOr(0) >= 7 * Day
  }

  /** The real-valued age in days the source computes is at least seven
      exactly when the test above passes. */
  lemma ProfileDueMeansAWeek(lastUpdated: string, parse: string -> Option<int>, now: int)
    ensures ProfileDue(lastUpdated, parse, now) <==>
      (if PhpEmpty(lastUpdated) then NeverUpdatedDays as real else (now - parse(lastUpdated).GetOr(0)) as real / Day as real) >= 7.0
  {
  }

  /** `run_profile_update()`: whether the profile is rebuilt, and the notice. */
  function RunProfileUpdate(lastUpdated: string, parse: string -> Option<int>, now: int): (r: (bool, seq<Notice>))
    ensures r.0 <==> ProfileDue(lastUpdated, parse, now)
    ensures r.1 != [] <==> r.0
  {
    if ProfileDue(lastUpdated, parse, now) then
      (true, [Notification("Site Profile Updated", "Your site profile has been refreshed with the latest data.")])
    else (false, [])
  }

  /** A profile stamped less than a week ago is left alone. */
  lemma FreshProfileKept(lastUpdated: string, parse: string -> Option<int>, now: int, stamped: int)
    requires !PhpEmpty(lastUpdated) && parse(lastUpdated) == Some(stamped) && stamped <= now < stamped + 7 * Day
    ensures !RunProfileUpdate(lastUpdated, parse, now).0
  {
  }

  // ---------------------------------------------------------------- monitoring

  function CriticalChangeAlert(count: nat, now: int): AlertSystem.AlertData {
    AlertSystem.AlertData("critical_change", Critical, "Critical SEO Changes Detected",
      Settings.IntString(count) + " critical changes detected on your site", None, now)
  }

  /** `run_monitoring_check()`: critical changes raise one critical alert
      (which also mails); anything else raises nothing. */
  function RunMonitoringCheck(report: ChangeTracker.ChangeReport, alerts: AlertSystem.AlertTable, now: int,
                              email: string, dashboard: string): (r: (AlertSystem.AlertTable, seq<AlertSystem.Mail>))
    ensures report.critical == [] ==> r == (alerts, [])
    ensures report.critical != [] ==>
      |r.0.rows| == |alerts.rows| + 1 && r.0.rows[..|alerts.rows|] == alerts.rows &&
      r.0.rows[|alerts.rows|].data == CriticalChangeAlert(|report.critical|, now) &&
      !r.0.rows[|alerts.rows|].isRead && |r.1| == 1
  {
    if report.critical == [] then (alerts, [])
    else
      var (t, _, mails) := AlertSystem.CreateAlert(alerts, CriticalChangeAlert(|report.critical|, now), email, dashboard);
      (t, mails)
  }

  /** The alert's message carries the number of critical changes. */
  lemma MonitoringMessageCount(count: nat, now: int)
    ensures var m := CriticalChangeAlert(count, now).message;
      Settings.StringToInt(m[..|Settings.IntString(count)|]) == count
  {
    var m := CriticalChangeAlert(count, now).message;
    assert m[..|Settings.IntString(count)|] == Settings.IntString(count);
    Settings.IntStringRoundTrip(count);
  }

  // ---------------------------------------------------------------- cleanup

  /** `clean_expired_cache()`: entries past their expiry go. */
  function CleanExpiredCache(t: Tables, now: int): (r: Tables)
    ensures r.issues == t.issues && r.fixes == t.fixes
    ensures forall k :: k in r.research <==> k in t.research && t.research[k].expiresAt >= now
    ensures forall k :: k in r.research ==> r.research[k] == t.research[k]
  {
    t.(research := map k | k in t.research && t.research[k].expiresAt >= now :: t.research[k])
  }

  /** Cleaning changes no cache lookup from now on. */
  lemma CleaningKeepsLookups(t: Tables, now: int, topic: string, later: int)
    requires later >= now
    ensures GetCachedResearch(CleanExpiredCache(t, now), topic, later) == GetCachedResearch(t, topic, later)
  {
  }

  /** `run_cleanup()` on the audits: rows older than 90 days go. */
  function CleanOldAudits(audits: seq<AuditRecord>, now: int): (r: seq<AuditRecord>)
    ensures forall a :: a in r <==> a in audits && a.date >= now - 90 * Day
  {
    var r := Filter(audits, (a: AuditRecord) => a.date >= now - 90 * Day);
    forall a ensures a in r <==> a in audits && a.date >= now - 90 * Day {
      FilterMember(audits, (a: AuditRecord) => a.date >= now - 90 * Day, a);
    }
    r
  }

  // ---------------------------------------------------------------- AI batch

  const BatchSize := 10
  const BatchThreshold := 60

  predicate AiOptimizationEnabled(settings: Settings.Store) {
    Settings.BoolCast(Settings.Get(settings, "auto_ai_optimization_enabled", Settings.VBool(false)))
  }

  /** `run_ai_optimization_batch()`: the posts handed to the optimiser (with
      PM review requested), at most ten of those below 60 or never scored,
      and the summary notice, sent when there was at least one. */
  function RunAiOptimizationBatch(settings: Settings.Store, site: WordPress.Site, published: seq<int>): (r: (seq<int>, seq<Notice>))
    ensures !AiOptimizationEnabled(settings) ==> r == ([], [])
    ensures |r.0| <= BatchSize
    ensures forall k :: 0 <= k < |r.0| ==>
      r.0[k] in published && AiSearchFixer.NeedsOptimization(WordPress.GetMeta(site, r.0[k], AiSearchFixer.ScoreKey), BatchThreshold)
    ensures r.1 != [] <==> r.0 != []
    ensures AiOptimizationEnabled(settings) ==>
      r.0 == SliceHead(Filter(published, AiSearchFixer.Needs(site, BatchThreshold)), BatchSize)
  {
    if !AiOptimizationEnabled(settings) then ([], [])
    else
      var candidates := AiSearchFixer.FindPostsNeedingOptimization(site, published, BatchThreshold);
      var batch := SliceHead(candidates, BatchSize);
      var ids := seq(|batch|, k requires 0 <= k < |batch| => batch[k].postId);
      BatchNeedsOptimization(site, published, ids);
      AiSearchFixer.NeedingIdsFilter(site, published, BatchThreshold);
      assert ids == SliceHead(AiSearchFixer.NeedingIds(site, published, BatchThreshold), BatchSize);
      (ids, if ids == [] then [] else [Notification("Weekly AI Optimization Complete",
        Settings.IntString(|ids|) + " posts optimized for AI search this week.")])
  }

  lemma BatchNeedsOptimization(site: WordPress.Site, published: seq<int>, ids: seq<int>)
    requires |ids| <= |AiSearchFixer.FindPostsNeedingOptimization(site, published, BatchThreshold)|
    requires forall k :: 0 <= k < |ids| ==> ids[k] == AiSearchFixer.FindPostsNeedingOptimization(site, published, BatchThreshold)[k].postId
    ensures forall k :: 0 <= k < |ids| ==>
      ids[k] in published && AiSearchFixer.NeedsOptimization(WordPress.GetMeta(site, ids[k], AiSearchFixer.ScoreKey), BatchThreshold)
  {
    forall k | 0 <= k < |ids|
      ensures ids[k] in published && AiSearchFixer.NeedsOptimization(WordPress.GetMeta(site, ids[k], AiSearchFixer.ScoreKey), BatchThreshold)
    {
      AiSearchFixer.CandidatesExactly(site, published, BatchThreshold, ids[k]);
    }
  }

  // ---------------------------------------------------------------- manual runs

  datatype Job = AuditJob | ProfileJob | MonitoringJob | CleanupJob | AiOptimizationJob

  function JobName(j: Job): string {
    match j
    case AuditJob => "audit"
    case ProfileJob => "profile"
    case MonitoringJob => "monitoring"
    case CleanupJob => "cleanup"
    case AiOptimizationJob => "ai_optimization"
  }

  /** `trigger_job($job_name)`: the job to run, or `invalid_job`. */
  function TriggerJob(name: string): (r: Result<Job>)
    ensures r.Ok? ==> JobName(r.value) == name
    ensures r.Err? ==> r.error == InvalidJob
  {
    if name == "audit" then Ok(AuditJob)
    else if name == "profile" then Ok(ProfileJob)
    else if name == "monitoring" then Ok(MonitoringJob)
    else if name == "cleanup" then Ok(CleanupJob)
    else if name == "ai_optimization" then Ok(AiOptimizationJob)
    else Err(InvalidJob)
  }

  /** Every job can be triggered by its name, and only the five names
      trigger anything. */
  lemma TriggerJobExactly(name: string)
    ensures forall j :: TriggerJob(JobName(j)) == Ok(j)
    ensures TriggerJob(name).Err? <==> forall j :: JobName(j) != name
  {
    if TriggerJob(name).Ok? {
      assert JobName(TriggerJob(name).value) == name;
    }
  }
}
