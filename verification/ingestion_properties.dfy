/** What one call of the webhook handler does to the tables, stated on `IngestOutcome`
    (and so, through the contract of `Store.Ingest`, on the handler itself). */
module IngestionProperties {
  import opened Text
  import opened Records
  import opened Payloads
  import opened Ingestion

  /** Projects whose github_repo is `key`. */
  function RepoCount(ps: seq<Project>, key: string): (n: nat)
    ensures n <= |ps|
  {
    if ps == [] then 0 else (if ps[0].githubRepo == key then 1 else 0) + RepoCount(ps[1..], key)
  }

  lemma {:induction false} RepoCountAppend(ps: seq<Project>, q: Project, key: string)
    ensures RepoCount(ps + [q], key) == RepoCount(ps, key) + (if q.githubRepo == key then 1 else 0)
  {
    if ps != [] {
      assert (ps + [q])[1..] == ps[1..] + [q];
      RepoCountAppend(ps[1..], q, key);
    } else {
      assert ps + [q] == [q];
    }
  }

  /** The SELECT finds a project exactly when the count of projects with that repo is not zero. */
  lemma {:induction false} RepoCountFound(ps: seq<Project>, key: string)
    ensures RepoCount(ps, key) == 0 <==> FindProject(ps, key).None?
  {
    if ps != [] {
      RepoCountFound(ps[1..], key);
    }
  }

  /** The completing UPDATE of a scan appended last leaves every earlier scan as it was. */
  lemma {:induction false} CompleteNewScan(ss: seq<Scan>, scan: Scan, rows: seq<FindingRow>, at: int)
    requires scan.id !in ScanIds(ss)
    ensures CompleteScan(ss + [scan], scan.id, rows, at)
         == ss + [scan.(status := Completed, completedAt := Some(at), counters := Some(CountersFor(rows, scan.id)))]
  {
    var ts := CompleteScan(ss + [scan], scan.id, rows, at);
    forall i | 0 <= i < |ss|
      ensures ts[i] == ss[i]
    {
      assert ss[i] in ss;
    }
  }

  // ---------------------------------------------------------------------------
  // Append-only
  // ---------------------------------------------------------------------------

  /** Nothing written before is deleted or rewritten: each table keeps its old rows as a
      prefix; at most one project and one scan are added; findings are added only after a scan. */
  lemma {:induction false} IngestAppendsOnly(db: Db, tool: string, p: Payload, clock: Clock, projectUuid: string, findingUuid: nat -> string)
    ensures var o := IngestOutcome(db, tool, p, clock, projectUuid, findingUuid);
      && |db.projects| <= |o.db.projects| <= |db.projects| + 1 && o.db.projects[..|db.projects|] == db.projects
      && |db.scans| <= |o.db.scans| <= |db.scans| + 1 && o.db.scans[..|db.scans|] == db.scans
      && |db.findings| <= |o.db.findings| && o.db.findings[..|db.findings|] == db.findings
      && (|o.db.findings| > |db.findings| ==> |o.db.scans| == |db.scans| + 1)
  {
    var o := IngestOutcome(db, tool, p, clock, projectUuid, findingUuid);
    if p.findings.Items? && GetOrCreateProject(db.projects, p, projectUuid, clock).Some? {
      var (ps, projectId) := GetOrCreateProject(db.projects, p, projectUuid, clock).value;
      var scanId := ScanIdFor(p, clock.millis);
      var scan := NewScan(scanId, projectId, tool, |p.findings.items|, clock);
      if ScanInsertable(db.scans, scan) {
        var rows := NewRows(projectId, scanId, tool, p.findings.items, findingUuid);
        var k := InsertedCount(db.findings, rows);
        if k == |rows| {
          CompleteNewScan(db.scans, scan, db.findings + rows, clock.scanCompleted);
        }
        assert (db.findings + rows[..k])[..|db.findings|] == db.findings;
        assert (db.findings + rows)[..|db.findings|] == db.findings;
      }
    }
  }

  // ---------------------------------------------------------------------------
  // Success
  // ---------------------------------------------------------------------------

  /** The path a successful call takes, stage by stage. */
  lemma {:induction false} AcceptedPath(db: Db, tool: string, p: Payload, clock: Clock, projectUuid: string, findingUuid: nat -> string)
    returns (ps: seq<Project>, projectId: string, scan: Scan, rows: seq<FindingRow>)
    requires IngestOutcome(db, tool, p, clock, projectUuid, findingUuid).response.Accepted?
    ensures p.findings.Items?
    ensures GetOrCreateProject(db.projects, p, projectUuid, clock) == Some((ps, projectId))
    ensures scan == NewScan(ScanIdFor(p, clock.millis), projectId, tool, |p.findings.items|, clock)
    ensures ScanInsertable(db.scans, scan)
    ensures rows == NewRows(projectId, scan.id, tool, p.findings.items, findingUuid)
    ensures InsertedCount(db.findings, rows) == |rows|
    ensures IngestOutcome(db, tool, p, clock, projectUuid, findingUuid)
         == Outcome(Db(ps, CompleteScan(db.scans + [scan], scan.id, db.findings + rows, clock.scanCompleted), db.findings + rows),
                    Accepted(scan.id, |rows|), Some(ItemsFor(rows)))
  {
    var items := p.findings.items;
    var found := GetOrCreateProject(db.projects, p, projectUuid, clock);
    ps, projectId := found.value.0, found.value.1;
    scan := NewScan(ScanIdFor(p, clock.millis), projectId, tool, |items|, clock);
    rows := NewRows(projectId, scan.id, tool, items, findingUuid);
  }

  /** Rows that all went in have ids new to the table and distinct from each other. */
  lemma {:induction false} InsertedRowsFresh(table: seq<FindingRow>, rows: seq<FindingRow>)
    requires InsertedCount(table, rows) == |rows|
    ensures forall i :: 0 <= i < |rows| ==> rows[i].id !in FindingIds(table)
    ensures forall i, j :: 0 <= i < j < |rows| ==> rows[i].id != rows[j].id
  {
    InsertedPrefixFits(table, rows);
    forall i | 0 <= i < |rows|
      ensures rows[i].id !in FindingIds(table)
      ensures forall j :: i < j < |rows| ==> rows[i].id != rows[j].id
    {
      forall j | i < j < |rows|
        ensures rows[i].id != rows[j].id
      {
        assert RowInsertable(table + rows[..j], rows[j]);
        assert rows[i] in table + rows[..j];
      }
      assert RowInsertable(table + rows[..i], rows[i]);
      assert FindingIds(table) <= FindingIds(table + rows[..i]);
    }
  }

  /** On success one row per payload element is appended, in payload order: the i-th carries
      the i-th fresh UUID (new to the table and distinct from the others), the repo's project,
      the scan id, the route's tool, status open and the element's normalised fields; the
      batch for analysis holds the same id, tool and fields. */
  lemma {:induction false} AcceptedStoresEveryFinding(db: Db, tool: string, p: Payload, clock: Clock, projectUuid: string, findingUuid: nat -> string)
    ensures var o := IngestOutcome(db, tool, p, clock, projectUuid, findingUuid);
      o.response.Accepted? ==>
        var n := |p.findings.items|;
        var before := |db.findings|;
        && |o.db.findings| == before + n
        && o.db.findings[..before] == db.findings
        && FindProject(o.db.projects, RepoKey(p)).Some?
        && (forall i, j :: 0 <= i < j < n ==> findingUuid(i) != findingUuid(j))
        && (forall i :: 0 <= i < n ==>
              && o.db.findings[before + i].id == findingUuid(i)
              && findingUuid(i) !in FindingIds(db.findings)
              && o.db.findings[before + i].projectId == o.db.projects[FindProject(o.db.projects, RepoKey(p)).value].id
              && o.db.findings[before + i].scanId == o.response.scanId
              && o.db.findings[before + i].tool == tool
              && o.db.findings[before + i].status == OpenStatus
              && o.db.findings[before + i].finding == NormalizeFinding(p.findings.items[i])
              && o.analysis.value[i] == AnalysisItem(findingUuid(i), tool, NormalizeFinding(p.findings.items[i])))
  {
    var o := IngestOutcome(db, tool, p, clock, projectUuid, findingUuid);
    if o.response.Accepted? {
      var ps, projectId, scan, rows := AcceptedPath(db, tool, p, clock, projectUuid, findingUuid);
      var items := p.findings.items;
      var before := |db.findings|;
      NewRowsShape(projectId, scan.id, tool, items, findingUuid);
      InsertedRowsFresh(db.findings, rows);
      ProjectFoundAfter(db.projects, p, projectUuid, clock);
      var fs := db.findings + rows;
      assert fs[..before] == db.findings;
      assert forall i :: 0 <= i < |rows| ==> fs[before + i] == rows[i];
      assert forall i :: 0 <= i < |rows| ==> rows[i].id == findingUuid(i);
    }
  }

  /** After get-or-create, the SELECT by repo finds exactly the project the handler went on with. */
  lemma {:induction false} ProjectFoundAfter(ps: seq<Project>, p: Payload, uuid: string, clock: Clock)
    requires GetOrCreateProject(ps, p, uuid, clock).Some?
    ensures var (qs, projectId) := GetOrCreateProject(ps, p, uuid, clock).value;
      FindProject(qs, RepoKey(p)).Some? && qs[FindProject(qs, RepoKey(p)).value].id == projectId
  {
    var (qs, projectId) := GetOrCreateProject(ps, p, uuid, clock).value;
    if FindProject(ps, RepoKey(p)).None? {
      FindAppended(ps, NewProject(p, uuid, clock), RepoKey(p));
    }
  }

  lemma {:induction false} FindAppended(ps: seq<Project>, q: Project, key: string)
    requires FindProject(ps, key).None? && q.githubRepo == key
    ensures FindProject(ps + [q], key) == Some(|ps|)
  {
    if ps != [] {
      assert (ps + [q])[1..] == ps[1..] + [q];
      FindAppended(ps[1..], q, key);
    }
  }

  /** On success the new scan is the last row of the scans table and the only one added: it
      is completed, announces as many findings as the payload has, has exactly that many, and
      its counters count its high, medium, low and info findings. Critical findings and
      findings of any other severity are in no counter. */
  lemma {:induction false} AcceptedCompletesScan(db: Db, tool: string, p: Payload, clock: Clock, projectUuid: string, findingUuid: nat -> string)
    requires TablesValid(db)
    ensures var o := IngestOutcome(db, tool, p, clock, projectUuid, findingUuid);
      o.response.Accepted? ==>
        var n := |p.findings.items|;
        var scanId := o.response.scanId;
        && |o.db.scans| == |db.scans| + 1
        && o.db.scans[..|db.scans|] == db.scans
        && var s := o.db.scans[|db.scans|];
        && s.id == scanId && s.tool == tool && s.status == Completed
        && FindProject(o.db.projects, RepoKey(p)).Some?
        && s.projectId == o.db.projects[FindProject(o.db.projects, RepoKey(p)).value].id
        && s.startedAt == clock.scanStarted && s.completedAt == Some(clock.scanCompleted)
        && s.totalFindings == n
        && CountRows(o.db.findings, ScanFilter(scanId)) == n
        && s.counters == Some(CountersFor(o.db.findings, scanId))
        && s.counters.value.high + s.counters.value.medium + s.counters.value.low + s.counters.value.info
           + CountRows(o.db.findings, WithSeverity(ScanFilter(scanId), Critical))
           + CountUnranked(o.db.findings, ScanFilter(scanId)) == n
  {
    var o := IngestOutcome(db, tool, p, clock, projectUuid, findingUuid);
    if o.response.Accepted? {
      var ps, projectId, scan, rows := AcceptedPath(db, tool, p, clock, projectUuid, findingUuid);
      var fs := db.findings + rows;
      CompleteNewScan(db.scans, scan, fs, clock.scanCompleted);
      ProjectFoundAfter(db.projects, p, projectUuid, clock);
      NewRowsShape(projectId, scan.id, tool, p.findings.items, findingUuid);
      NewScanCount(db, scan.id, rows);
      SeverityPartition(fs, ScanFilter(scan.id));
      assert o.db.projects == ps && o.db.findings == fs;
      var found := FindProject(ps, RepoKey(p));
      assert found.Some? && ps[found.value].id == projectId;
      assert o.db.scans[|db.scans|]
          == scan.(status := Completed, completedAt := Some(clock.scanCompleted), counters := Some(CountersFor(fs, scan.id)));
    }
  }

  /** The findings with a scan id new to the scans table are exactly the rows appended for it. */
  lemma {:induction false} NewScanCount(db: Db, scanId: string, rows: seq<FindingRow>)
    requires FindingsResolve(db.findings, db.projects, db.scans) && scanId !in ScanIds(db.scans)
    requires forall i :: 0 <= i < |rows| ==> rows[i].scanId == scanId
    ensures CountRows(db.findings + rows, ScanFilter(scanId)) == |rows|
  {
    NoRowsOfUnknownScan(db, scanId);
    CountRowsAppend(db.findings, rows, ScanFilter(scanId));
    SelectAll(rows, ScanFilter(scanId));
  }

  /** A completed scan consistent with its findings: its four counters, its critical findings
      and its findings of no named severity add up to the total it announced. */
  lemma {:induction false} CompletedCountersPartition(s: Scan, rows: seq<FindingRow>)
    requires ScanConsistent(s, rows) && s.status == Completed
    ensures s.counters.value.high + s.counters.value.medium + s.counters.value.low + s.counters.value.info
            + CountRows(rows, WithSeverity(ScanFilter(s.id), Critical))
            + CountUnranked(rows, ScanFilter(s.id)) == s.totalFindings
  {
    SeverityPartition(rows, ScanFilter(s.id));
  }

  // ---------------------------------------------------------------------------
  // Failure
  // ---------------------------------------------------------------------------

  /** On error 500 nothing goes to analysis and nothing is undone. If the scan insert failed no
      finding was written; if a finding insert failed, the rows before it stay (the first
      elements of the payload, in order) and the scan stays processing with no counters. */
  lemma {:induction false} FailureKeepsEarlierWork(db: Db, tool: string, p: Payload, clock: Clock, projectUuid: string, findingUuid: nat -> string)
    ensures var o := IngestOutcome(db, tool, p, clock, projectUuid, findingUuid);
      o.response.ServerError? ==>
        var added := |o.db.findings| - |db.findings|;
        && o.analysis.None?
        && p.findings.Items?
        && o.db.findings[..|db.findings|] == db.findings
        && (o.db.scans == db.scans ==> added == 0)
        && (o.db.scans != db.scans ==>
              && |o.db.scans| == |db.scans| + 1 && o.db.scans[..|db.scans|] == db.scans
              && o.db.scans[|db.scans|].id == ScanIdFor(p, clock.millis)
              && o.db.scans[|db.scans|].status == Processing
              && o.db.scans[|db.scans|].counters.None?
              && o.db.scans[|db.scans|].totalFindings == |p.findings.items|
              && 0 <= added < |p.findings.items|
              && forall i :: 0 <= i < added ==>
                   && o.db.findings[|db.findings| + i].id == findingUuid(i)
                   && o.db.findings[|db.findings| + i].scanId == ScanIdFor(p, clock.millis)
                   && o.db.findings[|db.findings| + i].finding == NormalizeFinding(p.findings.items[i]))
  {
    var o := IngestOutcome(db, tool, p, clock, projectUuid, findingUuid);
    if o.response.ServerError? && GetOrCreateProject(db.projects, p, projectUuid, clock).Some? {
      var items := p.findings.items;
      var (ps, projectId) := GetOrCreateProject(db.projects, p, projectUuid, clock).value;
      var scanId := ScanIdFor(p, clock.millis);
      var scan := NewScan(scanId, projectId, tool, |items|, clock);
      if ScanInsertable(db.scans, scan) {
        var rows := NewRows(projectId, scanId, tool, items, findingUuid);
        var k := InsertedCount(db.findings, rows);
        assert k < |rows|;
        assert o.db.findings == db.findings + rows[..k];
        assert o.db.scans == db.scans + [scan];
        assert o.db.scans != db.scans by {
          assert |o.db.scans| == |db.scans| + 1;
        }
        assert o.db.findings[..|db.findings|] == db.findings;
        NewRowsShape(projectId, scanId, tool, items, findingUuid);
        forall i | 0 <= i < k
          ensures o.db.findings[|db.findings| + i] == rows[i]
        {
        }
      }
    }
  }

  /** A scan id that is already in the scans table (a payload repeating its scan_id) makes the
      scan insert fail: error 500 with no scan and no finding written. */
  lemma {:induction false} DuplicateScanIdFails(db: Db, tool: string, p: Payload, clock: Clock, projectUuid: string, findingUuid: nat -> string)
    requires p.findings.Items? && ScanIdFor(p, clock.millis) in ScanIds(db.scans)
    ensures var o := IngestOutcome(db, tool, p, clock, projectUuid, findingUuid);
      o.response == ServerError && o.db.scans == db.scans && o.db.findings == db.findings
  {
  }

  // ---------------------------------------------------------------------------
  // Get or create the project
  // ---------------------------------------------------------------------------

  /** An existing project with the payload's repo key is reused and no project is added;
      without one, exactly one project is added, named from the payload, unless that insert
      fails (error 500, nothing written). */
  lemma {:induction false} GetOrCreateProjectRow(db: Db, tool: string, p: Payload, clock: Clock, projectUuid: string, findingUuid: nat -> string)
    requires p.findings.Items?
    ensures var o := IngestOutcome(db, tool, p, clock, projectUuid, findingUuid);
      && (RepoCount(db.projects, RepoKey(p)) > 0 ==> o.db.projects == db.projects)
      && (RepoCount(db.projects, RepoKey(p)) == 0 ==>
            || o.db.projects == db.projects + [Project(projectUuid, ProjectNameFor(p), RepoKey(p), clock.projectCreated)]
            || (o.db == db && o.response == ServerError))
  {
    RepoCountFound(db.projects, RepoKey(p));
  }

  /** Ingestion adds a project only for a repo key no project has: the count for the payload's
      key becomes at most one when it was zero, and the counts for every other key stay. */
  lemma {:induction false} IngestRepoCounts(db: Db, tool: string, p: Payload, clock: Clock, projectUuid: string, findingUuid: nat -> string)
    ensures var o := IngestOutcome(db, tool, p, clock, projectUuid, findingUuid);
      && (RepoCount(db.projects, RepoKey(p)) > 0 ==> RepoCount(o.db.projects, RepoKey(p)) == RepoCount(db.projects, RepoKey(p)))
      && (RepoCount(db.projects, RepoKey(p)) == 0 ==> RepoCount(o.db.projects, RepoKey(p)) <= 1)
      && (o.response.Accepted? ==> RepoCount(o.db.projects, RepoKey(p)) >= 1)
      && (forall key :: key != RepoKey(p) ==> RepoCount(o.db.projects, key) == RepoCount(db.projects, key))
  {
    var o := IngestOutcome(db, tool, p, clock, projectUuid, findingUuid);
    RepoCountFound(db.projects, RepoKey(p));
    if p.findings.Items? && o.db.projects != db.projects {
      var q := NewProject(p, projectUuid, clock);
      assert o.db.projects == db.projects + [q];
      forall key
        ensures RepoCount(o.db.projects, key) == RepoCount(db.projects, key) + (if key == RepoKey(p) then 1 else 0)
      {
        RepoCountAppend(db.projects, q, key);
      }
    }
    if o.response.Accepted? {
      ProjectFoundAfter(db.projects, p, projectUuid, clock);
      RepoCountFound(o.db.projects, RepoKey(p));
    }
  }

  /** Two ingestions in a row for the same repo key leave at most one project with that key
      (when there was at most one before), and if the first succeeded the second adds none. */
  lemma {:induction false} SequentialIngestionsShareProject(
    db: Db, tool1: string, p1: Payload, clock1: Clock, uuid1: string, findingUuid1: nat -> string,
    tool2: string, p2: Payload, clock2: Clock, uuid2: string, findingUuid2: nat -> string)
    requires RepoKey(p1) == RepoKey(p2) && RepoCount(db.projects, RepoKey(p1)) <= 1
    ensures var o1 := IngestOutcome(db, tool1, p1, clock1, uuid1, findingUuid1);
      var o2 := IngestOutcome(o1.db, tool2, p2, clock2, uuid2, findingUuid2);
      && RepoCount(o2.db.projects, RepoKey(p1)) <= 1
      && (o1.response.Accepted? ==> o2.db.projects == o1.db.projects && RepoCount(o2.db.projects, RepoKey(p1)) == 1)
  {
    var o1 := IngestOutcome(db, tool1, p1, clock1, uuid1, findingUuid1);
    IngestRepoCounts(db, tool1, p1, clock1, uuid1, findingUuid1);
    IngestRepoCounts(o1.db, tool2, p2, clock2, uuid2, findingUuid2);
    if o1.response.Accepted? && p2.findings.Items? {
      GetOrCreateProjectRow(o1.db, tool2, p2, clock2, uuid2, findingUuid2);
    }
  }
}
