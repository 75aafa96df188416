/** The webhook handler `POST /webhooks/:tool` (src/routes/webhooks.js) over in-memory
    tables. `IngestOutcome` is the specification: what the three tables hold afterwards,
    the response and the batch handed to analysis. `Store.Ingest` is the handler itself,
    updating the tables statement by statement, proved to reach exactly that outcome.

    There is no transaction: every INSERT that succeeds stays, so a failure part-way leaves
    the rows written before it. Which statements fail comes from the schema
    (src/setup-db.js): a primary-key clash, a string longer than its VARCHAR column, or a
    number outside the INTEGER range. */
module Ingestion {
  import opened Text
  import opened Records
  import opened Payloads

  // ---------------------------------------------------------------------------
  // Column constraints of the schema
  // ---------------------------------------------------------------------------

  const IdWidth := 36          // VARCHAR(36): every id and project_id column
  const WideWidth := 255       // projects.name, projects.github_repo, findings.scan_id
  const ToolWidth := 50
  const SeverityWidth := 20
  const StatusWidth := 20
  const TitleWidth := 500
  const LocationWidth := 500
  const IntMin := -0x8000_0000
  const IntMax := 0x7fff_ffff

  predicate FitsInteger(n: int) { IntMin <= n <= IntMax }

  predicate ProjectFits(p: Project)
  {
    |p.id| <= IdWidth && |p.name| <= WideWidth && |p.githubRepo| <= WideWidth
  }

  predicate ScanFits(s: Scan)
  {
    |s.id| <= IdWidth && |s.projectId| <= IdWidth && |s.tool| <= ToolWidth && FitsInteger(s.totalFindings)
  }

  predicate RowFits(r: FindingRow)
  {
    && |r.id| <= IdWidth && |r.projectId| <= IdWidth && |r.scanId| <= WideWidth
    && |r.tool| <= ToolWidth && |r.status| <= StatusWidth
    && |r.finding.severity| <= SeverityWidth && |r.finding.title| <= TitleWidth
    && |r.finding.location| <= LocationWidth
    && (r.finding.lineNumber.Some? ==> FitsInteger(r.finding.lineNumber.value))
    && FitsInteger(r.finding.confidence)
  }

  function ProjectIds(ps: seq<Project>): set<string> { set p | p in ps :: p.id }
  function ScanIds(ss: seq<Scan>): set<string> { set s | s in ss :: s.id }
  function FindingIds(rs: seq<FindingRow>): set<string> { set r | r in rs :: r.id }

  /** The INSERT succeeds: the key is new and every value fits its column. */
  predicate ProjectInsertable(ps: seq<Project>, p: Project) { p.id !in ProjectIds(ps) && ProjectFits(p) }
  predicate ScanInsertable(ss: seq<Scan>, s: Scan) { s.id !in ScanIds(ss) && ScanFits(s) }
  predicate RowInsertable(rs: seq<FindingRow>, r: FindingRow) { r.id !in FindingIds(rs) && RowFits(r) }

  // ---------------------------------------------------------------------------
  // The invariant the three tables keep
  // ---------------------------------------------------------------------------

  function ScanFilter(scanId: string): RowFilter { RowFilter(None, Some(scanId), None) }

  /** The values the completing UPDATE writes: per-severity counts of the scan's findings. */
  function CountersFor(rows: seq<FindingRow>, scanId: string): Counters
  {
    Counters(
      CountRows(rows, WithSeverity(ScanFilter(scanId), High)),
      CountRows(rows, WithSeverity(ScanFilter(scanId), Medium)),
      CountRows(rows, WithSeverity(ScanFilter(scanId), Low)),
      CountRows(rows, WithSeverity(ScanFilter(scanId), Info)))
  }

  /** A scan is processing or completed; it never has more findings than it announced;
      once completed it has exactly that many and its counters are their counts. */
  ghost predicate ScanConsistent(s: Scan, rows: seq<FindingRow>)
  {
    && s.status != Pending
    && CountRows(rows, ScanFilter(s.id)) <= s.totalFindings
    && (s.status == Completed <==> s.counters.Some?)
    && (s.status == Completed ==>
          && s.completedAt.Some?
          && CountRows(rows, ScanFilter(s.id)) == s.totalFindings
          && s.counters.value == CountersFor(rows, s.id))
  }

  ghost predicate UniqueProjectIds(ps: seq<Project>)
  {
    forall i, j :: 0 <= i < j < |ps| ==> ps[i].id != ps[j].id
  }

  ghost predicate UniqueScanIds(ss: seq<Scan>)
  {
    forall i, j :: 0 <= i < j < |ss| ==> ss[i].id != ss[j].id
  }

  ghost predicate UniqueFindingIds(rs: seq<FindingRow>)
  {
    forall i, j :: 0 <= i < j < |rs| ==> rs[i].id != rs[j].id
  }

  ghost predicate KeysUnique(db: Db)
  {
    UniqueProjectIds(db.projects) && UniqueScanIds(db.scans) && UniqueFindingIds(db.findings)
  }

  ghost predicate ProjectsFit(ps: seq<Project>)
  {
    forall i :: 0 <= i < |ps| ==> ProjectFits(ps[i])
  }

  /** Every scan fits its columns and references a project. */
  ghost predicate ScansResolve(ss: seq<Scan>, ps: seq<Project>)
  {
    forall i :: 0 <= i < |ss| ==> ScanFits(ss[i]) && ss[i].projectId in ProjectIds(ps)
  }

  ghost predicate ScansConsistent(ss: seq<Scan>, rows: seq<FindingRow>)
  {
    forall i :: 0 <= i < |ss| ==> ScanConsistent(ss[i], rows)
  }

  /** Every finding fits its columns, is open, and references a project and a scan. */
  ghost predicate FindingsResolve(rows: seq<FindingRow>, ps: seq<Project>, ss: seq<Scan>)
  {
    forall i :: 0 <= i < |rows| ==>
      && RowFits(rows[i]) && rows[i].status == OpenStatus
      && rows[i].projectId in ProjectIds(ps) && rows[i].scanId in ScanIds(ss)
  }

  /** A finding belongs to the project of its scan. */
  ghost predicate FindingsFollowScans(rows: seq<FindingRow>, ss: seq<Scan>)
  {
    forall i, j :: 0 <= i < |rows| && 0 <= j < |ss| && rows[i].scanId == ss[j].id
      ==> rows[i].projectId == ss[j].projectId
  }

  /** Primary keys are unique, every row fits its columns, references resolve (scans and
      findings to projects, findings to scans), a finding belongs to its scan's project,
      and every scan is consistent with its findings. */
  ghost predicate TablesValid(db: Db)
  {
    && KeysUnique(db)
    && ProjectsFit(db.projects)
    && ScansResolve(db.scans, db.projects)
    && ScansConsistent(db.scans, db.findings)
    && FindingsResolve(db.findings, db.projects, db.scans)
    && FindingsFollowScans(db.findings, db.scans)
  }

  // ---------------------------------------------------------------------------
  // The handler as a function of the tables before it
  // ---------------------------------------------------------------------------

  /** The clocks the handler reads: Date.now() for the default scan id and the database's
      NOW() / CURRENT_TIMESTAMP at the project insert, the scan insert and the update. */
  datatype Clock = Clock(millis: nat, projectCreated: int, scanStarted: int, scanCompleted: int)

  datatype Response = Accepted(scanId: string, findingsCount: nat) | BadRequest | ServerError
  {
    function StatusCode(): nat
    {
      match this
      case Accepted(_, _) => 200
      case BadRequest => 400
      case ServerError => 500
    }

    function ErrorText(): string
    {
      match this
      case Accepted(_, _) => ""
      case BadRequest => "No findings in payload"
      case ServerError => "Internal server error"
    }
  }

  /** The tables afterwards, the response, and the batch handed to analysis (None when the
      analysis call is never made). */
  datatype Outcome = Outcome(db: Db, response: Response, analysis: Option<seq<AnalysisItem>>)

  const OpenStatus := "open"

  /** The first project row whose github_repo is `key`: the handler takes `rows[0]`. */
  function FindProject(ps: seq<Project>, key: string): (r: Option<nat>)
    ensures r.Some? ==> r.value < |ps| && ps[r.value].githubRepo == key
    ensures r.Some? ==> forall j :: 0 <= j < r.value ==> ps[j].githubRepo != key
    ensures r.None? ==> forall j :: 0 <= j < |ps| ==> ps[j].githubRepo != key
  {
    if ps == [] then None
    else if ps[0].githubRepo == key then Some(0)
    else match FindProject(ps[1..], key)
      case None => None
      case Some(k) => Some(k + 1)
  }

  function NewRow(projectId: string, scanId: string, tool: string, raw: RawFinding, id: string): FindingRow
  {
    FindingRow(id, projectId, scanId, tool, NormalizeFinding(raw), OpenStatus)
  }

  /** The rows the loop would insert, one per payload element, the i-th with the i-th UUID. */
  function NewRows(projectId: string, scanId: string, tool: string, items: seq<RawFinding>,
                   uuid: nat -> string): (rows: seq<FindingRow>)
    ensures |rows| == |items|
  {
    seq(|items|, i requires 0 <= i < |items| => NewRow(projectId, scanId, tool, items[i], uuid(i)))
  }

  function ItemsFor(rows: seq<FindingRow>): (items: seq<AnalysisItem>)
    ensures |items| == |rows|
  {
    seq(|rows|, i requires 0 <= i < |rows| => AnalysisItem(rows[i].id, rows[i].tool, rows[i].finding))
  }

  /** How many of `rows` the loop inserts into `table` before the first INSERT that fails. */
  function InsertedCount(table: seq<FindingRow>, rows: seq<FindingRow>): (k: nat)
    ensures k <= |rows|
    decreases |rows|
  {
    if rows == [] || !RowInsertable(table, rows[0]) then 0
    else 1 + InsertedCount(table + [rows[0]], rows[1..])
  }

  /** `UPDATE scans SET status = 'completed', completed_at = NOW(), <counters> WHERE id = scanId`. */
  function CompleteScan(ss: seq<Scan>, scanId: string, rows: seq<FindingRow>, at: int): (r: seq<Scan>)
    ensures |r| == |ss|
  {
    seq(|ss|, i requires 0 <= i < |ss| =>
      if ss[i].id == scanId
      then ss[i].(status := Completed, completedAt := Some(at), counters := Some(CountersFor(rows, scanId)))
      else ss[i])
  }

  function NewProject(p: Payload, uuid: string, clock: Clock): Project
  {
    Project(uuid, ProjectNameFor(p), RepoKey(p), clock.projectCreated)
  }

  function NewScan(scanId: string, projectId: string, tool: string, total: nat, clock: Clock): Scan
  {
    Scan(scanId, projectId, tool, Processing, clock.scanStarted, None, total, None)
  }

  /** Get or create the project keyed by `RepoKey(p)`: the table afterwards and the id the
      handler goes on with, or None when the INSERT fails. */
  function GetOrCreateProject(ps: seq<Project>, p: Payload, uuid: string, clock: Clock): Option<(seq<Project>, string)>
  {
    var found := FindProject(ps, RepoKey(p));
    if found.Some? then Some((ps, ps[found.value].id))
    else if ProjectInsertable(ps, NewProject(p, uuid, clock)) then Some((ps + [NewProject(p, uuid, clock)], uuid))
    else None
  }

  /** Insert the processing scan, then its findings. */
  function StoreScan(db: Db, projectId: string, tool: string, scanId: string, items: seq<RawFinding>,
                     clock: Clock, findingUuid: nat -> string): Outcome
  {
    var scan := NewScan(scanId, projectId, tool, |items|, clock);
    if !ScanInsertable(db.scans, scan) then Outcome(db, ServerError, None)
    else StoreFindings(db.(scans := db.scans + [scan]), scanId,
                       NewRows(projectId, scanId, tool, items, findingUuid), clock.scanCompleted)
  }

  /** Insert the rows one by one; when all are in, complete the scan. */
  function StoreFindings(db: Db, scanId: string, rows: seq<FindingRow>, completedAt: int): Outcome
  {
    var k := InsertedCount(db.findings, rows);
    if k < |rows| then Outcome(db.(findings := db.findings + rows[..k]), ServerError, None)
    else
      var findings := db.findings + rows;
      Outcome(Db(db.projects, CompleteScan(db.scans, scanId, findings, completedAt), findings),
              Accepted(scanId, |rows|), Some(ItemsFor(rows)))
  }

  /** The whole handler. */
  function IngestOutcome(db: Db, tool: string, p: Payload, clock: Clock,
                         projectUuid: string, findingUuid: nat -> string): (o: Outcome)
    ensures o.response.BadRequest? <==> !p.findings.Items?
    ensures o.response.BadRequest? ==> o.db == db
    ensures o.analysis.Some? <==> o.response.Accepted?
    ensures o.response.Accepted? ==>
      && o.response.scanId == ScanIdFor(p, clock.millis)
      && o.response.findingsCount == |p.findings.items|
      && |o.analysis.value| == |p.findings.items|
  {
    if !p.findings.Items? then Outcome(db, BadRequest, None)
    else match GetOrCreateProject(db.projects, p, projectUuid, clock)
      case None => Outcome(db, ServerError, None)
      case Some((projects, projectId)) =>
        StoreScan(db.(projects := projects), projectId, tool, ScanIdFor(p, clock.millis),
                  p.findings.items, clock, findingUuid)
  }

  // ---------------------------------------------------------------------------
  // The handler as the source writes it: statement by statement on the tables
  // ---------------------------------------------------------------------------

  class Store {
    var projects: seq<Project>
    var scans: seq<Scan>
    var findings: seq<FindingRow>

    function Snapshot(): Db
      reads this
    {
      Db(projects, scans, findings)
    }

    ghost predicate Valid()
      reads this
    {
      TablesValid(Snapshot())
    }

    constructor ()
      ensures Snapshot() == Db([], [], []) && Valid()
    {
      projects, scans, findings := [], [], [];
    }

    method Ingest(tool: string, payload: Payload, clock: Clock, projectUuid: string, findingUuid: nat -> string)
      returns (response: Response, analysis: Option<seq<AnalysisItem>>)
      requires Valid()
      modifies this
      ensures Valid()
      ensures Outcome(Snapshot(), response, analysis)
           == IngestOutcome(old(Snapshot()), tool, payload, clock, projectUuid, findingUuid)
    {
      IngestPreservesValid(Snapshot(), tool, payload, clock, projectUuid, findingUuid);
      var scanId := ScanIdFor(payload, clock.millis);
      if !payload.findings.Items? {
        return BadRequest, None;
      }
      var items := payload.findings.items;

      // Get or create the project.
      var found := FindProject(projects, RepoKey(payload));
      var projectId: string;
      if found.None? {
        var project := NewProject(payload, projectUuid, clock);
        if !ProjectInsertable(projects, project) {
          return ServerError, None;
        }
        projects := projects + [project];
        projectId := projectUuid;
      } else {
        projectId := projects[found.value].id;
      }

      // Insert the scan as processing.
      var scan := NewScan(scanId, projectId, tool, |items|, clock);
      if !ScanInsertable(scans, scan) {
        return ServerError, None;
      }
      scans := scans + [scan];

      // Insert the findings one by one, then complete the scan.
      ghost var rows := NewRows(projectId, scanId, tool, items, findingUuid);
      response, analysis := InsertFindings(rows, scanId, items, projectId, tool, findingUuid, clock.scanCompleted);
    }

    /** The loop of the handler and the completing UPDATE. */
    method InsertFindings(ghost rows: seq<FindingRow>, scanId: string, items: seq<RawFinding>, projectId: string,
                         tool: string, findingUuid: nat -> string, completedAt: int)
      returns (response: Response, analysis: Option<seq<AnalysisItem>>)
      requires rows == NewRows(projectId, scanId, tool, items, findingUuid)
      modifies this
      ensures Outcome(Snapshot(), response, analysis)
           == StoreFindings(old(Snapshot()), scanId, rows, completedAt)
    {
      ghost var before := findings;
      var toAnalyze: seq<AnalysisItem> := [];
      for i := 0 to |items|
        invariant projects == old(projects) && scans == old(scans)
        invariant findings == before + rows[..i]
        invariant InsertedCount(before, rows) == i + InsertedCount(findings, rows[i..])
        invariant toAnalyze == ItemsFor(rows[..i])
      {
        var findingId := findingUuid(i);
        var row := FindingRow(findingId, projectId, scanId, tool, NormalizeFinding(items[i]), OpenStatus);
        assert row == rows[i];
        InsertedCountStep(before, findings, rows, i);
        if !RowInsertable(findings, row) {
          return ServerError, None;
        }
        findings := findings + [row];
        toAnalyze := toAnalyze + [AnalysisItem(findingId, tool, NormalizeFinding(items[i]))];
        ItemsForSnoc(rows, i);
      }
      assert rows[..|items|] == rows;
      scans := CompleteScan(scans, scanId, findings, completedAt);
      response := Accepted(scanId, |items|);
      analysis := Some(toAnalyze);
    }
  }

  /** One turn of the insertion loop, as the insert count sees it. */
  lemma {:induction false} InsertedCountStep(before: seq<FindingRow>, table: seq<FindingRow>, rows: seq<FindingRow>, i: nat)
    requires i < |rows|
    requires table == before + rows[..i]
    requires InsertedCount(before, rows) == i + InsertedCount(table, rows[i..])
    ensures RowInsertable(table, rows[i]) ==>
      && table + [rows[i]] == before + rows[..i + 1]
      && InsertedCount(before, rows) == i + 1 + InsertedCount(table + [rows[i]], rows[i + 1..])
    ensures !RowInsertable(table, rows[i]) ==> InsertedCount(before, rows) == i && i < |rows|
  {
    assert rows[i..][0] == rows[i] && rows[i..][1..] == rows[i + 1..];
    assert rows[..i + 1] == rows[..i] + [rows[i]];
  }

  lemma {:induction false} ItemsForSnoc(rows: seq<FindingRow>, i: nat)
    requires i < |rows|
    ensures ItemsFor(rows[..i + 1]) == ItemsFor(rows[..i]) + [AnalysisItem(rows[i].id, rows[i].tool, rows[i].finding)]
  {
  }

  // ---------------------------------------------------------------------------
  // Lemmas: the invariant is kept, stage by stage
  // ---------------------------------------------------------------------------

  lemma {:induction false} CountOtherScanUnchanged(rows: seq<FindingRow>, extra: seq<FindingRow>, scanId: string, sev: Option<string>)
    requires forall i :: 0 <= i < |extra| ==> extra[i].scanId != scanId
    ensures CountRows(rows + extra, ScanFilter(scanId).(severity := sev)) == CountRows(rows, ScanFilter(scanId).(severity := sev))
  {
    CountRowsAppend(rows, extra, ScanFilter(scanId).(severity := sev));
    CountRowsNoMatch(extra, ScanFilter(scanId).(severity := sev));
  }

  lemma {:induction false} CountersUnchanged(rows: seq<FindingRow>, extra: seq<FindingRow>, scanId: string)
    requires forall i :: 0 <= i < |extra| ==> extra[i].scanId != scanId
    ensures CountRows(rows + extra, ScanFilter(scanId)) == CountRows(rows, ScanFilter(scanId))
    ensures CountersFor(rows + extra, scanId) == CountersFor(rows, scanId)
  {
    CountOtherScanUnchanged(rows, extra, scanId, None);
    CountOtherScanUnchanged(rows, extra, scanId, Some(High));
    CountOtherScanUnchanged(rows, extra, scanId, Some(Medium));
    CountOtherScanUnchanged(rows, extra, scanId, Some(Low));
    CountOtherScanUnchanged(rows, extra, scanId, Some(Info));
  }

  lemma {:induction false} SelectAll(rows: seq<FindingRow>, f: RowFilter)
    requires forall i :: 0 <= i < |rows| ==> Matches(f, rows[i])
    ensures Select(rows, f) == rows
  {
    if rows != [] {
      SelectAll(rows[1..], f);
    }
  }

  /** The rows the loop inserted are the first `k` new rows, each insertable in turn. */
  lemma {:induction false} InsertedPrefixFits(table: seq<FindingRow>, rows: seq<FindingRow>)
    ensures var k := InsertedCount(table, rows);
      forall i :: 0 <= i < k ==> RowInsertable(table + rows[..i], rows[i])
    decreases |rows|
  {
    var k := InsertedCount(table, rows);
    if k > 0 {
      InsertedPrefixFits(table + [rows[0]], rows[1..]);
      forall i | 0 <= i < k
        ensures RowInsertable(table + rows[..i], rows[i])
      {
        if i > 0 {
          PrefixShift(table, rows, i);
        } else {
          assert table + rows[..0] == table;
        }
      }
    }
  }

  lemma {:induction false} PrefixShift(table: seq<FindingRow>, rows: seq<FindingRow>, i: nat)
    requires 0 < i < |rows|
    ensures table + rows[..i] == (table + [rows[0]]) + rows[1..][..i - 1]
    ensures rows[i] == rows[1..][i - 1]
  {
    assert rows[..i] == [rows[0]] + rows[1..][..i - 1];
  }

  /** Appending rows that each insert successfully keeps the finding ids unique. */
  lemma {:induction false} AppendInsertableRows(table: seq<FindingRow>, rows: seq<FindingRow>, n: nat)
    requires n <= |rows|
    requires UniqueFindingIds(table)
    requires forall i :: 0 <= i < n ==> RowInsertable(table + rows[..i], rows[i])
    ensures UniqueFindingIds(table + rows[..n])
  {
    if n > 0 {
      AppendInsertableRows(table, rows, n - 1);
      var t := table + rows[..n - 1];
      assert table + rows[..n] == t + [rows[n - 1]];
      forall i | 0 <= i < |t|
        ensures t[i].id != rows[n - 1].id
      {
        assert t[i] in t;
      }
    }
  }

  lemma {:induction false} FindProjectIdKnown(ps: seq<Project>, key: string)
    requires FindProject(ps, key).Some?
    ensures ps[FindProject(ps, key).value].id in ProjectIds(ps)
  {
    assert ps[FindProject(ps, key).value] in ps;
  }

  lemma {:induction false} ProjectIdsAppend(ps: seq<Project>, p: Project)
    requires UniqueProjectIds(ps) && p.id !in ProjectIds(ps)
    ensures UniqueProjectIds(ps + [p])
    ensures ProjectIds(ps + [p]) == ProjectIds(ps) + {p.id}
  {
    var qs := ps + [p];
    forall i, j | 0 <= i < j < |qs|
      ensures qs[i].id != qs[j].id
    {
      if j == |ps| {
        assert qs[i] in ps;
      }
    }
  }

  lemma {:induction false} ScanIdsAppend(ss: seq<Scan>, s: Scan)
    requires UniqueScanIds(ss) && s.id !in ScanIds(ss)
    ensures UniqueScanIds(ss + [s])
    ensures ScanIds(ss + [s]) == ScanIds(ss) + {s.id}
  {
    var ts := ss + [s];
    forall i, j | 0 <= i < j < |ts|
      ensures ts[i].id != ts[j].id
    {
      if j == |ss| {
        assert ts[i] in ss;
      }
    }
  }

  /** Getting or creating the project keeps the tables valid, and the id it yields is a project's. */
  lemma {:induction false} ProjectStageValid(db: Db, p: Payload, uuid: string, clock: Clock)
    requires TablesValid(db)
    requires GetOrCreateProject(db.projects, p, uuid, clock).Some?
    ensures var (ps, pid) := GetOrCreateProject(db.projects, p, uuid, clock).value;
      TablesValid(db.(projects := ps)) && pid in ProjectIds(ps)
  {
    var found := FindProject(db.projects, RepoKey(p));
    if found.Some? {
      FindProjectIdKnown(db.projects, RepoKey(p));
    } else {
      var project := NewProject(p, uuid, clock);
      ProjectIdsAppend(db.projects, project);
    }
  }

  /** No finding references a scan id the scans table lacks. */
  lemma {:induction false} NoRowsOfUnknownScan(db: Db, scanId: string)
    requires FindingsResolve(db.findings, db.projects, db.scans) && scanId !in ScanIds(db.scans)
    ensures CountRows(db.findings, ScanFilter(scanId)) == 0
  {
    forall i | 0 <= i < |db.findings|
      ensures !Matches(ScanFilter(scanId), db.findings[i])
    {
    }
    CountRowsNoMatch(db.findings, ScanFilter(scanId));
  }

  /** Growing the projects and scans tables keeps every finding's references resolved. */
  lemma {:induction false} FindingsResolveGrow(rows: seq<FindingRow>, ps: seq<Project>, ss: seq<Scan>, ps': seq<Project>, ss': seq<Scan>)
    requires FindingsResolve(rows, ps, ss)
    requires ProjectIds(ps) <= ProjectIds(ps') && ScanIds(ss) <= ScanIds(ss')
    ensures FindingsResolve(rows, ps', ss')
  {
  }

  lemma {:induction false} ScansResolveAppend(ss: seq<Scan>, ps: seq<Project>, scan: Scan)
    requires ScansResolve(ss, ps) && ScanFits(scan) && scan.projectId in ProjectIds(ps)
    ensures ScansResolve(ss + [scan], ps)
  {
    var ts := ss + [scan];
    forall i | 0 <= i < |ts|
      ensures ScanFits(ts[i]) && ts[i].projectId in ProjectIds(ps)
    {
      if i < |ss| {
        assert ts[i] == ss[i];
      }
    }
  }

  lemma {:induction false} ScansConsistentAppend(ss: seq<Scan>, rows: seq<FindingRow>, scan: Scan)
    requires ScansConsistent(ss, rows)
    requires scan.status == Processing && scan.counters.None?
    requires CountRows(rows, ScanFilter(scan.id)) == 0 && scan.totalFindings >= 0
    ensures ScansConsistent(ss + [scan], rows)
  {
    var ts := ss + [scan];
    forall i | 0 <= i < |ts|
      ensures ScanConsistent(ts[i], rows)
    {
      if i < |ss| {
        assert ts[i] == ss[i];
      }
    }
  }

  lemma {:induction false} FollowScansAppend(rows: seq<FindingRow>, ss: seq<Scan>, scan: Scan)
    requires FindingsFollowScans(rows, ss)
    requires forall i :: 0 <= i < |rows| ==> rows[i].scanId != scan.id
    ensures FindingsFollowScans(rows, ss + [scan])
  {
    var ts := ss + [scan];
    forall i, j | 0 <= i < |rows| && 0 <= j < |ts| && rows[i].scanId == ts[j].id
      ensures rows[i].projectId == ts[j].projectId
    {
      assert j < |ss| && ts[j] == ss[j];
    }
  }

  /** Inserting a new processing scan keeps the tables valid; it has no findings yet. */
  lemma {:induction false} ScanStageValid(db: Db, scan: Scan)
    requires TablesValid(db)
    requires ScanInsertable(db.scans, scan) && scan.projectId in ProjectIds(db.projects)
    requires scan.status == Processing && scan.counters.None? && scan.totalFindings >= 0
    ensures TablesValid(db.(scans := db.scans + [scan]))
    ensures CountRows(db.findings, ScanFilter(scan.id)) == 0
  {
    var ss := db.scans + [scan];
    NoRowsOfUnknownScan(db, scan.id);
    ScanIdsAppend(db.scans, scan);
    ScansResolveAppend(db.scans, db.projects, scan);
    ScansConsistentAppend(db.scans, db.findings, scan);
    FindingsResolveGrow(db.findings, db.projects, db.scans, db.projects, ss);
    FollowScansAppend(db.findings, db.scans, scan);
  }

  /** The scan's position in the table, given that its id is there. */
  lemma {:induction false} ScanAt(ss: seq<Scan>, scan: Scan, j: nat)
    requires UniqueScanIds(ss) && scan in ss && j < |ss| && ss[j].id == scan.id
    ensures ss[j] == scan
  {
    var m :| 0 <= m < |ss| && ss[m] == scan;
  }

  /** The counts of every scan after the inserted rows: the target scan has `k` of them, the
      others are unchanged. */
  lemma {:induction false} RowsKeepScansConsistent(db: Db, scan: Scan, added: seq<FindingRow>)
    requires UniqueScanIds(db.scans) && ScansConsistent(db.scans, db.findings)
    requires scan in db.scans && scan.status == Processing && |added| <= scan.totalFindings
    requires CountRows(db.findings, ScanFilter(scan.id)) == 0
    requires forall i :: 0 <= i < |added| ==> added[i].scanId == scan.id
    ensures ScansConsistent(db.scans, db.findings + added)
    ensures CountRows(db.findings + added, ScanFilter(scan.id)) == |added|
  {
    CountRowsAppend(db.findings, added, ScanFilter(scan.id));
    SelectAll(added, ScanFilter(scan.id));
    forall j | 0 <= j < |db.scans|
      ensures ScanConsistent(db.scans[j], db.findings + added)
    {
      if db.scans[j].id != scan.id {
        CountersUnchanged(db.findings, added, db.scans[j].id);
      } else {
        ScanAt(db.scans, scan, j);
      }
    }
  }

  lemma {:induction false} FindingsResolveAppend(rows: seq<FindingRow>, ps: seq<Project>, ss: seq<Scan>, added: seq<FindingRow>)
    requires FindingsResolve(rows, ps, ss)
    requires FindingsResolve(added, ps, ss)
    ensures FindingsResolve(rows + added, ps, ss)
  {
    var fs := rows + added;
    forall i | 0 <= i < |fs|
      ensures RowFits(fs[i]) && fs[i].status == OpenStatus
      ensures fs[i].projectId in ProjectIds(ps) && fs[i].scanId in ScanIds(ss)
    {
      if i < |rows| {
        assert fs[i] == rows[i];
      } else {
        assert fs[i] == added[i - |rows|];
      }
    }
  }

  lemma {:induction false} FollowScansAppendRows(rows: seq<FindingRow>, ss: seq<Scan>, scan: Scan, added: seq<FindingRow>)
    requires FindingsFollowScans(rows, ss) && UniqueScanIds(ss) && scan in ss
    requires forall i :: 0 <= i < |added| ==> added[i].scanId == scan.id && added[i].projectId == scan.projectId
    ensures FindingsFollowScans(rows + added, ss)
  {
    var fs := rows + added;
    forall i, j | 0 <= i < |fs| && 0 <= j < |ss| && fs[i].scanId == ss[j].id
      ensures fs[i].projectId == ss[j].projectId
    {
      if i < |rows| {
        assert fs[i] == rows[i];
      } else {
        assert fs[i] == added[i - |rows|];
        ScanAt(ss, scan, j);
      }
    }
  }

  /** The rows the loop got in fit their columns and reference the scan and its project. */
  lemma {:induction false} InsertedRowsResolve(db: Db, scan: Scan, rows: seq<FindingRow>)
    requires scan.projectId in ProjectIds(db.projects) && scan.id in ScanIds(db.scans)
    requires forall i :: 0 <= i < |rows| ==>
      rows[i].scanId == scan.id && rows[i].projectId == scan.projectId && rows[i].status == OpenStatus
    ensures FindingsResolve(rows[..InsertedCount(db.findings, rows)], db.projects, db.scans)
  {
    var k := InsertedCount(db.findings, rows);
    InsertedPrefixFits(db.findings, rows);
    forall i | 0 <= i < k
      ensures RowFits(rows[i])
    {
      assert RowInsertable(db.findings + rows[..i], rows[i]);
    }
  }

  /** Inserting the findings that go through keeps the tables valid, and the scan they belong
      to then has exactly that many. */
  lemma {:induction false} RowsStageValid(db: Db, scan: Scan, rows: seq<FindingRow>)
    requires TablesValid(db)
    requires scan in db.scans && scan.status == Processing && scan.totalFindings == |rows|
    requires CountRows(db.findings, ScanFilter(scan.id)) == 0
    requires forall i :: 0 <= i < |rows| ==>
      rows[i].scanId == scan.id && rows[i].projectId == scan.projectId && rows[i].status == OpenStatus
    ensures var k := InsertedCount(db.findings, rows);
      && TablesValid(db.(findings := db.findings + rows[..k]))
      && CountRows(db.findings + rows[..k], ScanFilter(scan.id)) == k
  {
    var k := InsertedCount(db.findings, rows);
    var added := rows[..k];
    InsertedPrefixFits(db.findings, rows);
    AppendInsertableRows(db.findings, rows, k);
    RowsKeepScansConsistent(db, scan, added);
    assert scan.projectId in ProjectIds(db.projects) && scan.id in ScanIds(db.scans) by {
      var j :| 0 <= j < |db.scans| && db.scans[j] == scan;
    }
    InsertedRowsResolve(db, scan, rows);
    FindingsResolveAppend(db.findings, db.projects, db.scans, added);
    FollowScansAppendRows(db.findings, db.scans, scan, added);
  }

  /** The completing UPDATE touches no column the keys and references use. */
  lemma {:induction false} CompleteScanKeepsKeys(ss: seq<Scan>, scanId: string, rows: seq<FindingRow>, at: int)
    ensures var ts := CompleteScan(ss, scanId, rows, at);
      && (forall i :: 0 <= i < |ts| ==> ts[i].id == ss[i].id && ts[i].projectId == ss[i].projectId && ScanFits(ts[i]) == ScanFits(ss[i]))
      && ScanIds(ts) == ScanIds(ss)
      && (UniqueScanIds(ss) ==> UniqueScanIds(ts))
  {
    var ts := CompleteScan(ss, scanId, rows, at);
    forall x | x in ScanIds(ss) ensures x in ScanIds(ts) {
      var i :| 0 <= i < |ss| && ss[i].id == x;
      assert ts[i] in ts;
    }
    forall x | x in ScanIds(ts) ensures x in ScanIds(ss) {
      var i :| 0 <= i < |ts| && ts[i].id == x;
      assert ss[i] in ss;
    }
  }

  lemma {:induction false} CompleteScanConsistent(ss: seq<Scan>, rows: seq<FindingRow>, j: nat, at: int)
    requires ScansConsistent(ss, rows) && UniqueScanIds(ss)
    requires j < |ss| && CountRows(rows, ScanFilter(ss[j].id)) == ss[j].totalFindings
    ensures ScansConsistent(CompleteScan(ss, ss[j].id, rows, at), rows)
  {
    var ts := CompleteScan(ss, ss[j].id, rows, at);
    forall i | 0 <= i < |ts|
      ensures ScanConsistent(ts[i], rows)
    {
      if ss[i].id == ss[j].id {
        assert i == j;
      }
    }
  }

  lemma {:induction false} FollowScansSameKeys(rows: seq<FindingRow>, ss: seq<Scan>, ts: seq<Scan>)
    requires FindingsFollowScans(rows, ss) && |ts| == |ss|
    requires forall i :: 0 <= i < |ts| ==> ts[i].id == ss[i].id && ts[i].projectId == ss[i].projectId
    ensures FindingsFollowScans(rows, ts)
  {
  }

  /** The completing UPDATE keeps the tables valid once the scan has all its findings. */
  lemma {:induction false} CompleteStageValid(db: Db, j: nat, at: int)
    requires TablesValid(db)
    requires j < |db.scans| && CountRows(db.findings, ScanFilter(db.scans[j].id)) == db.scans[j].totalFindings
    ensures TablesValid(db.(scans := CompleteScan(db.scans, db.scans[j].id, db.findings, at)))
  {
    var ss := CompleteScan(db.scans, db.scans[j].id, db.findings, at);
    CompleteScanKeepsKeys(db.scans, db.scans[j].id, db.findings, at);
    assert ScansResolve(ss, db.projects);
    CompleteScanConsistent(db.scans, db.findings, j, at);
    FindingsResolveGrow(db.findings, db.projects, db.scans, db.projects, ss);
    FollowScansSameKeys(db.findings, db.scans, ss);
  }

  /** The findings stage, from the scan insert on. */
  lemma {:induction false} StoreFindingsValid(db: Db, scanId: string, rows: seq<FindingRow>, completedAt: int)
    requires TablesValid(db) && |db.scans| > 0
    requires db.scans[|db.scans| - 1].id == scanId && db.scans[|db.scans| - 1].status == Processing
    requires db.scans[|db.scans| - 1].totalFindings == |rows|
    requires CountRows(db.findings, ScanFilter(scanId)) == 0
    requires forall i :: 0 <= i < |rows| ==>
      rows[i].scanId == scanId && rows[i].projectId == db.scans[|db.scans| - 1].projectId && rows[i].status == OpenStatus
    ensures TablesValid(StoreFindings(db, scanId, rows, completedAt).db)
  {
    var j := |db.scans| - 1;
    var scan := db.scans[j];
    assert scan in db.scans;
    RowsStageValid(db, scan, rows);
    var k := InsertedCount(db.findings, rows);
    if k == |rows| {
      assert rows[..k] == rows;
      CompleteStageValid(db.(findings := db.findings + rows), j, completedAt);
    }
  }

  /** Every new row carries the scan, its project, the route's tool, status open, the i-th
      UUID and the i-th element normalised. */
  lemma {:induction false} NewRowsShape(projectId: string, scanId: string, tool: string, items: seq<RawFinding>,
                                        uuid: nat -> string)
    ensures var rows := NewRows(projectId, scanId, tool, items, uuid);
      forall i :: 0 <= i < |rows| ==>
        && rows[i].scanId == scanId && rows[i].projectId == projectId && rows[i].status == OpenStatus
        && rows[i].tool == tool && rows[i].id == uuid(i) && rows[i].finding == NormalizeFinding(items[i])
  {
    var rows := NewRows(projectId, scanId, tool, items, uuid);
    forall i | 0 <= i < |rows|
      ensures rows[i] == FindingRow(uuid(i), projectId, scanId, tool, NormalizeFinding(items[i]), OpenStatus)
    {
    }
  }

  /** The scan stage, from the project on. */
  lemma {:induction false} StoreScanValid(db: Db, projectId: string, tool: string, scanId: string, items: seq<RawFinding>,
                                          clock: Clock, findingUuid: nat -> string)
    requires TablesValid(db) && projectId in ProjectIds(db.projects)
    ensures TablesValid(StoreScan(db, projectId, tool, scanId, items, clock, findingUuid).db)
  {
    var scan := NewScan(scanId, projectId, tool, |items|, clock);
    if ScanInsertable(db.scans, scan) {
      ScanStageValid(db, scan);
      var db2 := db.(scans := db.scans + [scan]);
      assert db2.scans[|db2.scans| - 1] == scan;
      NewRowsShape(projectId, scanId, tool, items, findingUuid);
      StoreFindingsValid(db2, scanId, NewRows(projectId, scanId, tool, items, findingUuid), clock.scanCompleted);
    }
  }

  /** Every outcome of the handler, success or failure at any statement, leaves the tables valid. */
  lemma {:induction false} IngestPreservesValid(db: Db, tool: string, p: Payload, clock: Clock, projectUuid: string, findingUuid: nat -> string)
    requires TablesValid(db)
    ensures TablesValid(IngestOutcome(db, tool, p, clock, projectUuid, findingUuid).db)
  {
    if p.findings.Items? && GetOrCreateProject(db.projects, p, projectUuid, clock).Some? {
      var (ps, projectId) := GetOrCreateProject(db.projects, p, projectUuid, clock).value;
      ProjectStageValid(db, p, projectUuid, clock);
      StoreScanValid(db.(projects := ps), projectId, tool, ScanIdFor(p, clock.millis), p.findings.items, clock, findingUuid);
    }
  }
}
