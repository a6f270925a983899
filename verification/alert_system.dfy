/** The alert store of the monitoring component: alerts are rows of their
    own table, read newest first; critical alerts also mail the site's
    notification address; a one-hour window suppresses repeats. Times are
    seconds; the mail is returned rather than sent. */
module AlertSystem {
  import opened Common
  import opened Sorting
  import Database

  type Severity = Database.Severity

  const Hour := 3600
  const Day := 86400

  /** What a caller hands to `create_alert`; `createdAt` is its current time. */
  datatype AlertData = AlertData(alertType: string, severity: Severity, title: string, message: string, url: Option<string>, createdAt: int)

  /** A row of the alerts table. */
  datatype Alert = Alert(id: int, data: AlertData, isRead: bool)

  /** The rows in insertion order and the next auto-increment id, which a
      deletion does not give back. */
  datatype AlertTable = AlertTable(rows: seq<Alert>, nextId: int)

  datatype Mail = Mail(to: string, subject: string, body: string)

  /** Ids below the counter, each used once. */
  predicate Valid(t: AlertTable) {
    (forall i :: 0 <= i < |t.rows| ==> t.rows[i].id < t.nextId) &&
    (forall i, j :: 0 <= i < j < |t.rows| ==> t.rows[i].id != t.rows[j].id)
  }

  function CreatedAt(a: Alert): int {
    a.data.createdAt
  }

  predicate Unread(a: Alert) {
    !a.isRead
  }

  // ---------------------------------------------------------------- creating

  /** `send_critical_notification`: `dashboard` is the alerts page's admin URL. */
  function CriticalMail(data: AlertData, email: string, dashboard: string): (m: Mail)
    ensures m.to == email && m.subject == "[CRITICAL] " + data.title
    ensures |m.body| >= |data.message| + 2 && m.body[..|data.message| + 2] == data.message + "\n\n"
    ensures Truthy(data.url) ==>
      |m.body| >= |data.message| + 16 && m.body[|data.message| + 2..][..14] == "Affected URL: "
    ensures !Truthy(data.url) ==> m.body[|data.message| + 2..] == "View in dashboard: " + dashboard
    ensures Truthy(data.url) ==>
      m.body[|data.message| + 2..] == "Affected URL: " + data.url.value + "\n\n" + "View in dashboard: " + dashboard
  {
    var urlPart := if Truthy(data.url) then "Affected URL: " + data.url.value + "\n\n" else "";
    var body := data.message + "\n\n" + urlPart + "View in dashboard: " + dashboard;
    assert body[|data.message| + 2..] == urlPart + "View in dashboard: " + dashboard;
    Mail(email, "[CRITICAL] " + data.title, body)
  }

  /** `create_alert`: the row is appended unread under the next id, and a
      critical alert (only a critical one) mails the notification address. */
  function CreateAlert(t: AlertTable, data: AlertData, email: string, dashboard: string): (r: (AlertTable, int, seq<Mail>))
    ensures r.0.rows == t.rows + [Alert(r.1, data, false)] && r.1 == t.nextId && r.0.nextId > r.1
    ensures Valid(t) ==> Valid(r.0)
    ensures |r.2| <= 1 && (r.2 != [] <==> data.severity == Database.Critical)
    ensures r.2 != [] ==> r.2[0] == CriticalMail(data, email, dashboard)
  {
    var mails := if data.severity == Database.Critical then [CriticalMail(data, email, dashboard)] else [];
    (AlertTable(t.rows + [Alert(t.nextId, data, false)], t.nextId + 1), t.nextId, mails)
  }

  /** `is_duplicate_alert`: an alert of the same type, and with the same URL
      when a (truthy) URL is given, created within the last hour. */
  predicate IsDuplicate(t: AlertTable, alertType: string, url: Option<string>, now: int) {
    exists i :: 0 <= i < |t.rows| && t.rows[i].data.alertType == alertType &&
      (!Truthy(url) || t.rows[i].data.url == url) && t.rows[i].data.createdAt >= now - Hour
  }

  /** `create_alert_safe`: a duplicate creates nothing and mails nobody
      (`false` in the source is None here). */
  function CreateAlertSafe(t: AlertTable, data: AlertData, email: string, dashboard: string): (r: (AlertTable, Option<int>, seq<Mail>))
    ensures IsDuplicate(t, data.alertType, data.url, data.createdAt) ==> r == (t, None, [])
    ensures !IsDuplicate(t, data.alertType, data.url, data.createdAt) ==>
      r.1 == Some(t.nextId) && r.0.rows == t.rows + [Alert(t.nextId, data, false)] &&
      (r.2 != [] <==> data.severity == Database.Critical)
  {
    if IsDuplicate(t, data.alertType, data.url, data.createdAt) then (t, None, [])
    else
      var (t2, id, mails) := CreateAlert(t, data, email, dashboard);
      (t2, Some(id), mails)
  }

  /** An alert just created suppresses the same alert, critical or not,
      for the next hour. */
  lemma RepeatSuppressed(t: AlertTable, data: AlertData, email: string, dashboard: string, later: int)
    requires !IsDuplicate(t, data.alertType, data.url, data.createdAt)
    requires data.createdAt <= later <= data.createdAt + Hour
    ensures var t1 := CreateAlertSafe(t, data, email, dashboard).0;
      CreateAlertSafe(t1, data.(createdAt := later), email, dashboard) == (t1, None, [])
  {
    var t1 := CreateAlertSafe(t, data, email, dashboard).0;
    assert t1.rows[|t.rows|].data == data;
  }

  // ---------------------------------------------------------------- reading

  /** `ORDER BY created_at DESC LIMIT n OFFSET o`; rows created in the same
      second keep their insertion order. */
  function Page(rows: seq<Alert>, limit: nat, offset: nat): (r: seq<Alert>)
    ensures |r| <= limit
    ensures SortedDesc(r, CreatedAt)
    ensures forall i :: 0 <= i < |r| ==> r[i] in rows
    ensures |r| == if offset >= |rows| then 0 else if |rows| - offset <= limit then |rows| - offset else limit
  {
    var sorted := SortDesc(rows, CreatedAt);
    var r := Window(sorted, limit, offset);
    var lo := if offset <= |sorted| then offset else |sorted|;
    WindowSorted(sorted, lo, lo + |r|, CreatedAt);
    SortDescMembers(rows, CreatedAt);
    r
  }

  /** Consecutive pages put together are the page that spans both. */
  lemma PagesTile(rows: seq<Alert>, a: nat, b: nat, offset: nat)
    ensures Page(rows, a, offset) + Page(rows, b, offset + a) == Page(rows, a + b, offset)
  {
    WindowsTile(SortDesc(rows, CreatedAt), a, b, offset);
  }

  /** A row left off the first page is no newer than any row on it, and the
      page is full. */
  lemma PageHoldsNewest(rows: seq<Alert>, limit: nat, x: Alert)
    requires x in rows && x !in Page(rows, limit, 0)
    ensures |Page(rows, limit, 0)| == limit
    ensures forall i :: 0 <= i < limit ==> CreatedAt(Page(rows, limit, 0)[i]) >= CreatedAt(x)
  {
    var sorted := SortDesc(rows, CreatedAt);
    var r := Page(rows, limit, 0);
    SortDescMembers(rows, CreatedAt);
    var k :| 0 <= k < |sorted| && sorted[k] == x;
    assert forall i :: 0 <= i < |r| ==> r[i] == sorted[i] && r[i] != x;
    assert k >= |r|;
  }

  /** With room for all of them, the page is a reordering of the rows. */
  lemma WholePage(rows: seq<Alert>, limit: nat)
    requires |rows| <= limit
    ensures multiset(Page(rows, limit, 0)) == multiset(rows)
  {
    var sorted := SortDesc(rows, CreatedAt);
    assert sorted[0..|sorted|] == sorted;
  }

  /** `get_unread_alerts`: the newest 50 unread alerts. */
  function GetUnreadAlerts(t: AlertTable): (r: seq<Alert>)
    ensures |r| <= 50 && SortedDesc(r, CreatedAt)
    ensures forall i :: 0 <= i < |r| ==> r[i] in t.rows && Unread(r[i])
    ensures forall a :: a in t.rows && Unread(a) && a !in r ==>
      |r| == 50 && forall i :: 0 <= i < 50 ==> CreatedAt(r[i]) >= CreatedAt(a)
  {
    var unread := Filter(t.rows, Unread);
    var r := Page(unread, 50, 0);
    assert forall i :: 0 <= i < |r| ==> r[i] in unread;
    forall a | a in t.rows && Unread(a) && a !in r
      ensures |r| == 50 && forall i :: 0 <= i < 50 ==> CreatedAt(r[i]) >= CreatedAt(a)
    {
      FilterMember(t.rows, Unread, a);
      PageHoldsNewest(unread, 50, a);
    }
    r
  }

  /** No more than 50 unread alerts are all listed. */
  lemma UnreadAllListed(t: AlertTable, a: Alert)
    requires |Filter(t.rows, Unread)| <= 50 && a in t.rows && Unread(a)
    ensures a in GetUnreadAlerts(t)
  {
    var unread := Filter(t.rows, Unread);
    FilterMember(t.rows, Unread, a);
    WholePage(unread, 50);
    assert a in multiset(Page(unread, 50, 0));
  }

  /** `get_alerts($limit, $offset)`. */
  function GetAlerts(t: AlertTable, limit: nat, offset: nat): (r: seq<Alert>)
    ensures |r| <= limit && SortedDesc(r, CreatedAt)
    ensures forall i :: 0 <= i < |r| ==> r[i] in t.rows
    ensures |r| == if offset >= |t.rows| then 0 else if |t.rows| - offset <= limit then |t.rows| - offset else limit
    ensures var earlier := Page(t.rows, offset, 0);
      forall i, j :: 0 <= i < |earlier| && 0 <= j < |r| ==> CreatedAt(earlier[i]) >= CreatedAt(r[j])
    ensures forall a :: a in t.rows && a !in Page(t.rows, offset, 0) && a !in r ==>
      forall j :: 0 <= j < |r| ==> CreatedAt(r[j]) >= CreatedAt(a)
  {
    PageAfterEarlier(t.rows, limit, offset);
    forall a | a in t.rows && a !in Page(t.rows, offset, 0) && a !in Page(t.rows, limit, offset)
      ensures forall j :: 0 <= j < |Page(t.rows, limit, offset)| ==> CreatedAt(Page(t.rows, limit, offset)[j]) >= CreatedAt(a)
    {
      PageLeavesOlder(t.rows, limit, offset, a);
    }
    Page(t.rows, limit, offset)
  }

  /** The rows on earlier pages are at least as new as those on this page. */
  lemma PageAfterEarlier(rows: seq<Alert>, limit: nat, offset: nat)
    ensures var earlier, r := Page(rows, offset, 0), Page(rows, limit, offset);
      forall i, j :: 0 <= i < |earlier| && 0 <= j < |r| ==> CreatedAt(earlier[i]) >= CreatedAt(r[j])
  {
    var earlier, r := Page(rows, offset, 0), Page(rows, limit, offset);
    PagesTile(rows, offset, limit, 0);
    SortedSplit(earlier, r, CreatedAt);
  }

  /** A row on neither the earlier pages nor this one is no newer than any
      row on this page. */
  lemma PageLeavesOlder(rows: seq<Alert>, limit: nat, offset: nat, x: Alert)
    requires x in rows && x !in Page(rows, offset, 0) && x !in Page(rows, limit, offset)
    ensures forall j :: 0 <= j < |Page(rows, limit, offset)| ==> CreatedAt(Page(rows, limit, offset)[j]) >= CreatedAt(x)
  {
    var earlier, r := Page(rows, offset, 0), Page(rows, limit, offset);
    PagesTile(rows, offset, limit, 0);
    assert x !in Page(rows, offset + limit, 0);
    PageHoldsNewest(rows, offset + limit, x);
    BoundedTail(earlier, r, CreatedAt, x);
  }

  /** `get_recent_critical($days)`: critical alerts of the last `days` days. */
  function GetRecentCritical(t: AlertTable, now: int, days: int): (r: seq<Alert>)
    ensures SortedDesc(r, CreatedAt)
    ensures forall i :: 0 <= i < |r| ==>
      r[i] in t.rows && r[i].data.severity == Database.Critical && r[i].data.createdAt >= now - days * Day
    ensures forall a :: a in t.rows && a.data.severity == Database.Critical && a.data.createdAt >= now - days * Day ==> a in r
  {
    var keep := (a: Alert) => a.data.severity == Database.Critical && a.data.createdAt >= now - days * Day;
    var r := SortDesc(Filter(t.rows, keep), CreatedAt);
    SortedFilterMembers(t.rows, keep, CreatedAt);
    assert forall i :: 0 <= i < |r| ==> r[i] in r;
    r
  }

  // ---------------------------------------------------------------- updating

  /** `mark_as_read($id)`. */
  function MarkAsRead(t: AlertTable, id: int): (r: AlertTable)
    ensures |r.rows| == |t.rows| && r.nextId == t.nextId
    ensures forall i :: 0 <= i < |t.rows| ==>
      r.rows[i] == if t.rows[i].id == id then t.rows[i].(isRead := true) else t.rows[i]
  {
    AlertTable(seq(|t.rows|, i requires 0 <= i < |t.rows| => if t.rows[i].id == id then t.rows[i].(isRead := true) else t.rows[i]), t.nextId)
  }

  /** `mark_all_as_read()`. */
  function MarkAllAsRead(t: AlertTable): (r: AlertTable)
    ensures |r.rows| == |t.rows| && r.nextId == t.nextId
    ensures forall i :: 0 <= i < |t.rows| ==> r.rows[i] == t.rows[i].(isRead := true)
  {
    AlertTable(seq(|t.rows|, i requires 0 <= i < |t.rows| => t.rows[i].(isRead := true)), t.nextId)
  }

  /** After marking everything read nothing is unread. */
  lemma NothingUnreadAfterMarkAll(t: AlertTable)
    ensures GetUnreadAlerts(MarkAllAsRead(t)) == []
    ensures GetAlertCounts(MarkAllAsRead(t)) == AlertCounts(0, 0, 0)
  {
    var rows := MarkAllAsRead(t).rows;
    NoUnreadNoCount(rows, Database.Critical);
    NoUnreadNoCount(rows, Database.Warning);
    NoUnreadNoCount(rows, Database.Info);
  }

  /** `delete_alert($id)`. */
  function DeleteAlert(t: AlertTable, id: int): (r: AlertTable)
    ensures forall a :: a in r.rows <==> a in t.rows && a.id != id
    ensures r.nextId == t.nextId
  {
    var r := Filter(t.rows, (a: Alert) => a.id != id);
    forall a ensures a in r <==> a in t.rows && a.id != id {
      FilterMember(t.rows, (a: Alert) => a.id != id, a);
    }
    AlertTable(r, t.nextId)
  }

  /** `clean_old_alerts()`: rows read and older than 30 days go. */
  predicate Stale(a: Alert, now: int) {
    a.data.createdAt < now - 30 * Day && a.isRead
  }

  function CleanOldAlerts(t: AlertTable, now: int): (r: AlertTable)
    ensures forall a :: a in r.rows <==> a in t.rows && !Stale(a, now)
    ensures r.nextId == t.nextId
    ensures Filter(r.rows, Unread) == Filter(t.rows, Unread)
  {
    var r := Filter(t.rows, (a: Alert) => !Stale(a, now));
    forall a ensures a in r <==> a in t.rows && !Stale(a, now) {
      FilterMember(t.rows, (a: Alert) => !Stale(a, now), a);
    }
    UnreadSurviveCleaning(t.rows, now);
    AlertTable(r, t.nextId)
  }

  lemma {:induction false} UnreadSurviveCleaning(rows: seq<Alert>, now: int)
    ensures Filter(Filter(rows, (a: Alert) => !Stale(a, now)), Unread) == Filter(rows, Unread)
    decreases |rows|
  {
    if |rows| > 0 {
      UnreadSurviveCleaning(rows[1..], now);
    }
  }

  /** Cleaning never hides an unread alert. */
  lemma CleaningKeepsUnreadList(t: AlertTable, now: int)
    ensures GetUnreadAlerts(CleanOldAlerts(t, now)) == GetUnreadAlerts(t)
  {
  }

  // ---------------------------------------------------------------- counting

  datatype AlertCounts = AlertCounts(critical: nat, warning: nat, info: nat)

  /** Unread alerts of one severity. */
  function CountUnread(rows: seq<Alert>, severity: Severity): (n: nat)
    ensures n <= |rows|
  {
    if |rows| == 0 then 0
    else (if Unread(rows[0]) && rows[0].data.severity == severity then 1 else 0) + CountUnread(rows[1..], severity)
  }

  /** `get_alert_counts()`: unread alerts per severity, 0 where there are none. */
  function GetAlertCounts(t: AlertTable): (r: AlertCounts)
    ensures r.critical + r.warning + r.info == |Filter(t.rows, Unread)|
    ensures (forall a :: a in t.rows && Unread(a) ==> a.data.severity != Database.Critical) ==> r.critical == 0
  {
    CountsSplit(t.rows);
    NoUnreadNoCount(t.rows, Database.Critical);
    AlertCounts(CountUnread(t.rows, Database.Critical), CountUnread(t.rows, Database.Warning), CountUnread(t.rows, Database.Info))
  }

  lemma {:induction false} CountsSplit(rows: seq<Alert>)
    ensures CountUnread(rows, Database.Critical) + CountUnread(rows, Database.Warning) + CountUnread(rows, Database.Info)
      == |Filter(rows, Unread)|
    decreases |rows|
  {
    if |rows| > 0 {
      CountsSplit(rows[1..]);
    }
  }

  lemma {:induction false} NoUnreadNoCount(rows: seq<Alert>, severity: Severity)
    ensures (forall a :: a in rows && Unread(a) ==> a.data.severity != severity) ==> CountUnread(rows, severity) == 0
    decreases |rows|
  {
    if |rows| > 0 {
      NoUnreadNoCount(rows[1..], severity);
      assert forall a :: a in rows[1..] ==> a in rows;
    }
  }

  lemma {:induction false} CountAppend(rows: seq<Alert>, a: Alert, severity: Severity)
    ensures CountUnread(rows + [a], severity) == CountUnread(rows, severity) + (if Unread(a) && a.data.severity == severity then 1 else 0)
    decreases |rows|
  {
    if |rows| == 0 {
      assert rows + [a] == [a];
    } else {
      assert (rows + [a])[1..] == rows[1..] + [a];
      CountAppend(rows[1..], a, severity);
    }
  }

  /** A new alert adds one to its own severity's count and nothing else. */
  lemma CreateAlertCounts(t: AlertTable, data: AlertData, email: string, dashboard: string)
    ensures var c0 := GetAlertCounts(t);
      var c1 := GetAlertCounts(CreateAlert(t, data, email, dashboard).0);
      c1 == AlertCounts(
        c0.critical + (if data.severity == Database.Critical then 1 else 0),
        c0.warning + (if data.severity == Database.Warning then 1 else 0),
        c0.info + (if data.severity == Database.Info then 1 else 0))
  {
    var a := Alert(t.nextId, data, false);
    CountAppend(t.rows, a, Database.Critical);
    CountAppend(t.rows, a, Database.Warning);
    CountAppend(t.rows, a, Database.Info);
  }

  /** Marking one alert read lowers at most its own severity's count by one. */
  lemma {:induction false} MarkAsReadCount(rows: seq<Alert>, marked: seq<Alert>, id: int, severity: Severity)
    requires |marked| == |rows|
    requires forall i :: 0 <= i < |rows| ==> marked[i] == if rows[i].id == id then rows[i].(isRead := true) else rows[i]
    ensures CountUnread(marked, severity) <= CountUnread(rows, severity)
    decreases |rows|
  {
    if |rows| > 0 {
      MarkAsReadCount(rows[1..], marked[1..], id, severity);
    }
  }

  lemma MarkAsReadNeverRaisesCounts(t: AlertTable, id: int)
    ensures var c0 := GetAlertCounts(t);
      var c1 := GetAlertCounts(MarkAsRead(t, id));
      c1.critical <= c0.critical && c1.warning <= c0.warning && c1.info <= c0.info
  {
    var marked := MarkAsRead(t, id).rows;
    MarkAsReadCount(t.rows, marked, id, Database.Critical);
    MarkAsReadCount(t.rows, marked, id, Database.Warning);
    MarkAsReadCount(t.rows, marked, id, Database.Info);
  }
}
