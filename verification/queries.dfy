/** The read-only queries of the API routes (src/routes/api.js) over a snapshot of the
    three tables: the project list, a project's scan history, a scan's findings, the
    report's findings and the dashboard counts. */
module Queries {
  import opened Text
  import opened Records
  import opened Sorting
  import opened Payloads
  import Ingestion

  // ---------------------------------------------------------------------------
  // GET /projects
  // ---------------------------------------------------------------------------

  /** A project row with the aggregates of the LEFT JOIN; NULL (None) when the project has
      no findings, since the grouped subquery then has no row for it. */
  datatype ProjectSummary = ProjectSummary(
    project: Project,
    totalFindings: Option<nat>,
    highSeverity: Option<nat>,
    mediumSeverity: Option<nat>)

  function ProjectFilter(projectId: string): RowFilter { RowFilter(Some(projectId), None, None) }

  /** One project joined with the counts over its findings. */
  function Summarize(p: Project, findings: seq<FindingRow>): (r: ProjectSummary)
    ensures r.project == p
    ensures r.totalFindings.None? <==> forall i :: 0 <= i < |findings| ==> findings[i].projectId != p.id
    ensures r.totalFindings.None? ==> r.highSeverity.None? && r.mediumSeverity.None?
    ensures r.totalFindings.Some? ==>
      && r.totalFindings.value == |Select(findings, ProjectFilter(p.id))|
      && r.highSeverity == Some(|Select(findings, WithSeverity(ProjectFilter(p.id), High))|)
      && r.mediumSeverity == Some(|Select(findings, WithSeverity(ProjectFilter(p.id), Medium))|)
  {
    var n := CountRows(findings, ProjectFilter(p.id));
    CountZeroMeansNone(findings, ProjectFilter(p.id));
    if n == 0 then
      ProjectSummary(p, None, None, None)
    else
      ProjectSummary(p, Some(n),
                     Some(CountRows(findings, WithSeverity(ProjectFilter(p.id), High))),
                     Some(CountRows(findings, WithSeverity(ProjectFilter(p.id), Medium))))
  }

  /** A count is zero exactly when no row matches. */
  lemma {:induction false} CountZeroMeansNone(rows: seq<FindingRow>, f: RowFilter)
    ensures CountRows(rows, f) == 0 <==> forall i :: 0 <= i < |rows| ==> !Matches(f, rows[i])
  {
    if rows != [] {
      CountZeroMeansNone(rows[1..], f);
      assert forall i :: 1 <= i < |rows| ==> rows[i] == rows[1..][i - 1];
    }
  }

  function ProjectKey(s: ProjectSummary): Key { Key(-s.project.createdAt, 0) }

  /** Every project joined with its aggregates, in table order (before ORDER BY). */
  function Summaries(db: Db): (r: seq<ProjectSummary>)
    ensures |r| == |db.projects|
    ensures forall i :: 0 <= i < |r| ==> r[i] == Summarize(db.projects[i], db.findings)
  {
    SummarizeAll(db.projects, db.findings)
  }

  function SummarizeAll(ps: seq<Project>, findings: seq<FindingRow>): (r: seq<ProjectSummary>)
    ensures |r| == |ps|
    ensures forall i :: 0 <= i < |r| ==> r[i] == Summarize(ps[i], findings)
  {
    if ps == [] then [] else [Summarize(ps[0], findings)] + SummarizeAll(ps[1..], findings)
  }

  /** `ORDER BY p.created_at DESC` over the LEFT JOIN: the joined rows, newest project first. */
  function ProjectList(db: Db): (r: seq<ProjectSummary>)
    ensures multiset(r) == multiset(Summaries(db))
    ensures |r| == |db.projects|
    ensures SortedBy(r, ProjectKey)
  {
    SortBy(Summaries(db), ProjectKey)
  }

  /** With unique project ids, the list has every project exactly once, each with its own
      aggregates, and a newer project never comes after an older one. */
  lemma {:induction false} ProjectListEachOnce(db: Db)
    requires Ingestion.UniqueProjectIds(db.projects)
    ensures var r := ProjectList(db);
      forall k :: 0 <= k < |db.projects| ==> exists i :: 0 <= i < |r| && r[i].project == db.projects[k]
    ensures var r := ProjectList(db);
      forall i :: 0 <= i < |r| ==> r[i].project in db.projects
    ensures var r := ProjectList(db);
      forall i, j :: 0 <= i < j < |r| ==> r[i].project.id != r[j].project.id
    ensures var r := ProjectList(db);
      forall i :: 0 <= i < |r| ==> r[i] == Summarize(r[i].project, db.findings)
    ensures var r := ProjectList(db);
      forall i, j :: 0 <= i < j < |r| ==> r[i].project.createdAt >= r[j].project.createdAt
  {
    var r := ProjectList(db);
    var s := Summaries(db);
    ProjectListMembers(db, r, s);
    ProjectListIds(db, r, s);
    ProjectListNewestFirst(r);
  }

  lemma {:induction false} ProjectListNewestFirst(r: seq<ProjectSummary>)
    requires SortedBy(r, ProjectKey)
    ensures forall i, j :: 0 <= i < j < |r| ==> r[i].project.createdAt >= r[j].project.createdAt
  {
    forall i, j | 0 <= i < j < |r|
      ensures r[i].project.createdAt >= r[j].project.createdAt
    {
      assert KeyLe(ProjectKey(r[i]), ProjectKey(r[j]));
    }
  }

  lemma {:induction false} ProjectListMembers(db: Db, r: seq<ProjectSummary>, s: seq<ProjectSummary>)
    requires s == Summaries(db) && multiset(r) == multiset(s)
    ensures forall k :: 0 <= k < |db.projects| ==> exists i :: 0 <= i < |r| && r[i].project == db.projects[k]
    ensures forall i :: 0 <= i < |r| ==> r[i].project in db.projects
    ensures forall i :: 0 <= i < |r| ==> r[i] == Summarize(r[i].project, db.findings)
  {
    forall k | 0 <= k < |db.projects|
      ensures exists i :: 0 <= i < |r| && r[i].project == db.projects[k]
    {
      assert s[k] in multiset(r);
      var i :| 0 <= i < |r| && r[i] == s[k];
    }
    forall i | 0 <= i < |r|
      ensures r[i].project in db.projects && r[i] == Summarize(r[i].project, db.findings)
    {
      assert r[i] in multiset(s);
      var k :| 0 <= k < |s| && s[k] == r[i];
      assert s[k].project == db.projects[k];
    }
  }

  lemma {:induction false} ProjectListIds(db: Db, r: seq<ProjectSummary>, s: seq<ProjectSummary>)
    requires Ingestion.UniqueProjectIds(db.projects)
    requires s == Summaries(db) && multiset(r) == multiset(s)
    ensures forall i, j :: 0 <= i < j < |r| ==> r[i].project.id != r[j].project.id
  {
    SummariesDistinct(db);
    DistinctByMultiset(r, s);
    forall i, j | 0 <= i < j < |r|
      ensures r[i].project.id != r[j].project.id
    {
      assert r[i] in multiset(s) && r[j] in multiset(s);
      var k :| 0 <= k < |s| && s[k] == r[i];
      var l :| 0 <= l < |s| && s[l] == r[j];
      assert k != l;
    }
  }

  lemma {:induction false} SummariesDistinct(db: Db)
    requires Ingestion.UniqueProjectIds(db.projects)
    ensures Distinct(Summaries(db))
  {
    var s := Summaries(db);
    forall i, j | 0 <= i < j < |s|
      ensures s[i] != s[j]
    {
      assert s[i].project == db.projects[i] && s[j].project == db.projects[j];
    }
  }

  // ---------------------------------------------------------------------------
  // GET /projects/:projectId/scans
  // ---------------------------------------------------------------------------

  const HistoryLimit := 50

  /** `WHERE project_id = $1`, in table order. */
  function ProjectScans(ss: seq<Scan>, projectId: string): (r: seq<Scan>)
    ensures forall s :: s in r <==> s in ss && s.projectId == projectId
  {
    if ss == [] then []
    else
      assert ss == [ss[0]] + ss[1..];
      (if ss[0].projectId == projectId then [ss[0]] else []) + ProjectScans(ss[1..], projectId)
  }

  function ScanKey(s: Scan): Key { Key(-s.startedAt, 0) }

  /** `ORDER BY started_at DESC LIMIT 50`. */
  function ScanHistory(db: Db, projectId: string): (r: seq<Scan>)
    ensures |r| == if |ProjectScans(db.scans, projectId)| < HistoryLimit then |ProjectScans(db.scans, projectId)| else HistoryLimit
    ensures forall s :: s in r ==> s in db.scans && s.projectId == projectId
    ensures forall i, j :: 0 <= i < j < |r| ==> r[i].startedAt >= r[j].startedAt
  {
    var sorted := SortBy(ProjectScans(db.scans, projectId), ScanKey);
    var r := Take(sorted, HistoryLimit);
    forall s | s in r
      ensures s in db.scans && s.projectId == projectId
    {
      assert s in multiset(sorted);
    }
    forall i, j | 0 <= i < j < |r|
      ensures r[i].startedAt >= r[j].startedAt
    {
      assert KeyLe(ScanKey(sorted[i]), ScanKey(sorted[j]));
    }
    r
  }

  /** The cap drops only the oldest: a scan of the project that the history leaves out (one
      of its copies, counting rows as a multiset) started no later than every scan it shows;
      with at most 50 scans nothing is left out. */
  lemma {:induction false} ScanHistoryKeepsNewest(db: Db, projectId: string)
    ensures var r := ScanHistory(db, projectId);
      var all := ProjectScans(db.scans, projectId);
      && (forall s :: multiset(r)[s] <= multiset(all)[s])
      && (forall s :: multiset(r)[s] < multiset(all)[s] ==>
            forall i :: 0 <= i < |r| ==> r[i].startedAt >= s.startedAt)
      && (|all| <= HistoryLimit ==> multiset(r) == multiset(all))
  {
    var sorted := SortBy(ProjectScans(db.scans, projectId), ScanKey);
    var r := ScanHistory(db, projectId);
    assert r == Take(sorted, HistoryLimit);
    TakeKeepsLeast(sorted, ScanKey, HistoryLimit);
    forall s | multiset(r)[s] < multiset(sorted)[s]
      ensures forall i :: 0 <= i < |r| ==> r[i].startedAt >= s.startedAt
    {
      forall i | 0 <= i < |r|
        ensures r[i].startedAt >= s.startedAt
      {
        assert KeyLe(ScanKey(r[i]), ScanKey(s));
      }
    }
  }

  // ---------------------------------------------------------------------------
  // GET /projects/:projectId/scans/:scanId/findings
  // ---------------------------------------------------------------------------

  /** Position of a severity in the ORDER BY: its CASE rank, and NULL (after info, as an
      ascending order puts NULLs last) for any other severity. */
  function RankOrLast(severity: string): (n: nat)
    ensures 1 <= n <= 6
    ensures n == 6 <==> !IsNamedSeverity(severity)
  {
    match SeverityRank(severity)
    case Some(k) => k
    case None => 6
  }

  function FindingKey(r: FindingRow): Key { Key(RankOrLast(r.finding.severity), -r.finding.confidence) }

  function ScanFindingFilter(projectId: string, scanId: string): RowFilter
  {
    RowFilter(Some(projectId), Some(scanId), None)
  }

  /** `WHERE project_id = $1 AND scan_id = $2 ORDER BY <severity rank>, confidence DESC`. */
  function ScanFindings(db: Db, projectId: string, scanId: string): (r: seq<FindingRow>)
    ensures multiset(r) == multiset(Select(db.findings, ScanFindingFilter(projectId, scanId)))
    ensures forall x :: x in r <==> x in db.findings && x.projectId == projectId && x.scanId == scanId
    ensures SortedBy(r, FindingKey)
  {
    var r := SortBy(Select(db.findings, ScanFindingFilter(projectId, scanId)), FindingKey);
    SameElements(r, Select(db.findings, ScanFindingFilter(projectId, scanId)));
    r
  }

  /** The order the findings come in: a named severity before a lower one and before every
      unnamed one (critical, high, medium, low, info, then the rest), and within one rank a
      higher confidence first. */
  lemma {:induction false} ScanFindingsOrder(db: Db, projectId: string, scanId: string)
    ensures var r := ScanFindings(db, projectId, scanId);
      forall i, j :: 0 <= i < j < |r| ==>
        && (IsNamedSeverity(r[j].finding.severity) ==>
              IsNamedSeverity(r[i].finding.severity)
              && SeverityRank(r[i].finding.severity).value <= SeverityRank(r[j].finding.severity).value)
        && (RankOrLast(r[i].finding.severity) == RankOrLast(r[j].finding.severity) ==>
              r[i].finding.confidence >= r[j].finding.confidence)
  {
    var r := ScanFindings(db, projectId, scanId);
    forall i, j | 0 <= i < j < |r|
      ensures IsNamedSeverity(r[j].finding.severity) ==>
              IsNamedSeverity(r[i].finding.severity)
              && SeverityRank(r[i].finding.severity).value <= SeverityRank(r[j].finding.severity).value
      ensures RankOrLast(r[i].finding.severity) == RankOrLast(r[j].finding.severity) ==>
              r[i].finding.confidence >= r[j].finding.confidence
    {
      assert KeyLe(FindingKey(r[i]), FindingKey(r[j]));
    }
  }

  // ---------------------------------------------------------------------------
  // GET /projects/:projectId/reports/pdf (the queries before rendering)
  // ---------------------------------------------------------------------------

  /** `SELECT * FROM projects WHERE id = $1`, first row. */
  function ProjectById(ps: seq<Project>, projectId: string): (r: Option<Project>)
    ensures r.Some? ==> r.value in ps && r.value.id == projectId
    ensures r.None? <==> forall i :: 0 <= i < |ps| ==> ps[i].id != projectId
  {
    if ps == [] then None
    else if ps[0].id == projectId then Some(ps[0])
    else
      var rest := ProjectById(ps[1..], projectId);
      assert forall i :: 1 <= i < |ps| ==> ps[i] == ps[1..][i - 1];
      rest
  }

  datatype ReportData = ProjectNotFound | ReportData(project: Project, findings: seq<FindingRow>)

  /** The report's project and findings: 404 without the project; the findings of the
      project, restricted to one scan only when the `scanId` query parameter is truthy. */
  function ReportFindings(db: Db, projectId: string, scanId: Option<string>): (r: ReportData)
    ensures r.ProjectNotFound? <==> forall i :: 0 <= i < |db.projects| ==> db.projects[i].id != projectId
    ensures r.ReportData? ==> r.project in db.projects && r.project.id == projectId
    ensures r.ReportData? ==> forall x :: x in r.findings <==>
      x in db.findings && x.projectId == projectId && (TruthyText(scanId) ==> x.scanId == scanId.value)
  {
    match ProjectById(db.projects, projectId)
    case None => ProjectNotFound
    case Some(p) =>
      ReportData(p, Select(db.findings, RowFilter(Some(projectId), if TruthyText(scanId) then scanId else None, None)))
  }

  /** Filtering by one criterion and then by another keeps the rows matching both, in order. */
  lemma {:induction false} SelectSelect(rows: seq<FindingRow>, projectId: string, scanId: string)
    ensures Select(Select(rows, ProjectFilter(projectId)), RowFilter(None, Some(scanId), None))
         == Select(rows, ScanFindingFilter(projectId, scanId))
  {
    if rows != [] {
      SelectSelect(rows[1..], projectId, scanId);
      var head := if Matches(ProjectFilter(projectId), rows[0]) then [rows[0]] else [];
      assert Select(rows, ProjectFilter(projectId)) == head + Select(rows[1..], ProjectFilter(projectId));
      SelectAppend(head, Select(rows[1..], ProjectFilter(projectId)), RowFilter(None, Some(scanId), None));
    }
  }

  lemma {:induction false} SelectAppend(a: seq<FindingRow>, b: seq<FindingRow>, f: RowFilter)
    ensures Select(a + b, f) == Select(a, f) + Select(b, f)
  {
    if a != [] {
      assert (a + b)[1..] == a[1..] + b;
      SelectAppend(a[1..], b, f);
    } else {
      assert a + b == b;
    }
  }

  /** Without a scan id (missing or empty) the report has all the project's findings; with one
      it has exactly those of them from that scan, in the same order, which are the findings
      the scan-findings route returns, there sorted. */
  lemma {:induction false} ReportScanFilter(db: Db, projectId: string, scanId: Option<string>)
    requires ReportFindings(db, projectId, scanId).ReportData?
    ensures var r := ReportFindings(db, projectId, scanId);
      var all := ReportFindings(db, projectId, None);
      && all.ReportData?
      && (!TruthyText(scanId) ==> r.findings == all.findings)
      && (TruthyText(scanId) ==>
            && r.findings == Select(all.findings, RowFilter(None, Some(scanId.value), None))
            && multiset(r.findings) == multiset(ScanFindings(db, projectId, scanId.value)))
  {
    if TruthyText(scanId) {
      SelectSelect(db.findings, projectId, scanId.value);
    }
  }

  // ---------------------------------------------------------------------------
  // GET /dashboard/stats
  // ---------------------------------------------------------------------------

  datatype DashboardStats = DashboardStats(projects: nat, scans: nat, criticalIssues: nat, highIssues: nat)

  /** Four COUNT(*) queries: projects, scans, critical findings and high findings. */
  function Dashboard(db: Db): (r: DashboardStats)
    ensures r.projects == |db.projects| && r.scans == |db.scans|
    ensures r.criticalIssues == |Select(db.findings, WithSeverity(AnyRow, Critical))|
    ensures r.highIssues == |Select(db.findings, WithSeverity(AnyRow, High))|
    ensures r.criticalIssues + r.highIssues <= |db.findings|
  {
    SeverityPartition(db.findings, AnyRow);
    DashboardStats(|db.projects|, |db.scans|,
                   CountRows(db.findings, WithSeverity(AnyRow, Critical)),
                   CountRows(db.findings, WithSeverity(AnyRow, High)))
  }

  /** A successful ingestion adds one scan to the dashboard and raises the critical and high
      counts by the number of payload elements whose normalised severity is critical or high. */
  lemma {:induction false} DashboardAfterIngest(db: Db, tool: string, p: Payload, clock: Ingestion.Clock,
                                               projectUuid: string, findingUuid: nat -> string)
    ensures var o := Ingestion.IngestOutcome(db, tool, p, clock, projectUuid, findingUuid);
      o.response.Accepted? ==>
        var before := Dashboard(db);
        var after := Dashboard(o.db);
        && after.scans == before.scans + 1
        && after.projects <= before.projects + 1
        && after.criticalIssues == before.criticalIssues + CountSeverity(p.findings.items, Critical)
        && after.highIssues == before.highIssues + CountSeverity(p.findings.items, High)
  {
    var o := Ingestion.IngestOutcome(db, tool, p, clock, projectUuid, findingUuid);
    if o.response.Accepted? {
      var (ps, projectId) := Ingestion.GetOrCreateProject(db.projects, p, projectUuid, clock).value;
      var scanId := ScanIdFor(p, clock.millis);
      var rows := Ingestion.NewRows(projectId, scanId, tool, p.findings.items, findingUuid);
      assert o.db.findings == db.findings + rows;
      CountRowsAppend(db.findings, rows, WithSeverity(AnyRow, Critical));
      CountRowsAppend(db.findings, rows, WithSeverity(AnyRow, High));
      NewRowsSeverities(projectId, scanId, tool, p.findings.items, findingUuid, Critical);
      NewRowsSeverities(projectId, scanId, tool, p.findings.items, findingUuid, High);
    }
  }

  /** Payload elements whose normalised severity is `s`. */
  function CountSeverity(items: seq<RawFinding>, s: string): (n: nat)
    ensures n <= |items|
  {
    if items == [] then 0
    else (if NormalizeFinding(items[0]).severity == s then 1 else 0) + CountSeverity(items[1..], s)
  }

  lemma {:induction false} NewRowsSeverities(projectId: string, scanId: string, tool: string, items: seq<RawFinding>,
                                            uuid: nat -> string, s: string)
    ensures CountRows(Ingestion.NewRows(projectId, scanId, tool, items, uuid), WithSeverity(AnyRow, s))
         == CountSeverity(items, s)
  {
    if items != [] {
      var rows := Ingestion.NewRows(projectId, scanId, tool, items, uuid);
      var shifted := (i: nat) => uuid(i + 1);
      var rest := Ingestion.NewRows(projectId, scanId, tool, items[1..], shifted);
      assert rows[1..] == rest;
      NewRowsSeverities(projectId, scanId, tool, items[1..], shifted, s);
    }
  }
}
