/** The three tables (projects, scans, findings) as rows, the severity vocabulary the
    handlers and reports share, and counts over the findings table. */
module Records {
  import opened Text

  // ---------------------------------------------------------------------------
  // Severities: an open string; five names have a rank, a marker and a colour
  // ---------------------------------------------------------------------------

  const Critical := "critical"
  const High := "high"
  const Medium := "medium"
  const Low := "low"
  const Info := "info"

  predicate IsNamedSeverity(s: string)
  {
    s == Critical || s == High || s == Medium || s == Low || s == Info
  }

  /** The five names in the order of the findings ORDER BY, most severe first. */
  const Severities := [Critical, High, Medium, Low, Info]

  /** The CASE expression of the findings ORDER BY: critical 1 … info 5, NULL otherwise.
      The rank of a named severity is its position in `Severities`, counted from 1. */
  function SeverityRank(s: string): (r: Option<nat>)
    ensures r.Some? <==> IsNamedSeverity(s)
    ensures r.Some? ==> 1 <= r.value <= 5 && Severities[r.value - 1] == s
  {
    if s == Critical then Some(1)
    else if s == High then Some(2)
    else if s == Medium then Some(3)
    else if s == Low then Some(4)
    else if s == Info then Some(5)
    else None
  }

  const Markers := ["🔴", "🟠", "🟡", "🔵", "⚪"]

  /** The emoji marker table looked up by severity, with '⚪' for a severity it lacks.
      The table's info entry is the same '⚪' as the default, so only the four severities
      above info get a marker of their own. */
  function Marker(severity: string): string
  {
    if severity == Critical then "🔴"
    else if severity == High then "🟠"
    else if severity == Medium then "🟡"
    else if severity == Low then "🔵"
    else "⚪"
  }

  /** Every marker comes from the table: a named severity gets the entry at its own rank,
      and the marker is '⚪' exactly for a severity other than critical, high, medium and low. */
  lemma {:induction false} MarkerTable(severity: string)
    ensures Marker(severity) in Markers
    ensures IsNamedSeverity(severity) ==> Marker(severity) == Markers[SeverityRank(severity).value - 1]
    ensures Marker(severity) == "⚪" <==> !(severity == Critical || severity == High || severity == Medium || severity == Low)
  {
  }

  /** The names a JavaScript object literal inherits from Object.prototype: looking one of
      them up in the marker table finds a member of the prototype, not a missing key. */
  const InheritedNames := {"constructor", "hasOwnProperty", "isPrototypeOf", "propertyIsEnumerable",
                           "toLocaleString", "toString", "valueOf", "__proto__", "__defineGetter__",
                           "__defineSetter__", "__lookupGetter__", "__lookupSetter__"}

  /** What `table[key] || default` yields on an object literal: text (an entry of its own, or
      the default for a key it lacks), or a member inherited from Object.prototype (a
      function, or the prototype itself for `__proto__`), which is truthy. */
  datatype Lookup = Own(text: string) | Inherited(name: string)

  /** `severityColors[f.severity] || '⚪'` as the marker lookups are written. Every inherited
      member is truthy, so the `'⚪'` default only fires for a key that is absent altogether. */
  function MarkerAsWritten(severity: string): (r: Lookup)
    ensures severity !in InheritedNames ==> r == Own(Marker(severity))
    ensures severity in InheritedNames ==> r == Inherited(severity)
  {
    if IsNamedSeverity(severity) then Own(Marker(severity))
    else if severity in InheritedNames then Inherited(severity)
    else Own("⚪")
  }

  /** A finding whose severity is "toString" (which the ingestion stores as it is, being a
      non-empty string) prints the text of a function where its marker belongs, while the
      unknown-severity default the lookup evidently intends is '⚪'. */
  lemma {:induction false} InheritedSeverityMarker()
    ensures MarkerAsWritten("toString") == Inherited("toString")
    ensures Marker("toString") == "⚪"
  {
    assert "toString"[0] == 't';
  }

  const Colors := ["#dc2626", "#ea580c", "#ca8a04", "#2563eb", "#6b7280"]

  /** The HTML report's colour table: a named severity has the colour at its rank; a severity
      the table lacks has no entry (JavaScript prints `undefined`). */
  function SeverityColor(severity: string): (c: Option<string>)
    ensures c.Some? <==> IsNamedSeverity(severity)
    ensures c.Some? ==> c.value == Colors[SeverityRank(severity).value - 1]
  {
    if severity == Critical then Some("#dc2626")
    else if severity == High then Some("#ea580c")
    else if severity == Medium then Some("#ca8a04")
    else if severity == Low then Some("#2563eb")
    else if severity == Info then Some("#6b7280")
    else None
  }

  // ---------------------------------------------------------------------------
  // Rows
  // ---------------------------------------------------------------------------

  /** The normalised fields of one finding, as stored and as handed to analysis. */
  datatype Finding = Finding(
    severity: string,
    title: string,
    description: string,
    location: string,
    lineNumber: Option<int>,   // NULL is None
    confidence: int)

  datatype FindingRow = FindingRow(
    id: string,
    projectId: string,
    scanId: string,
    tool: string,
    finding: Finding,
    status: string)

  /** One element of the batch handed to the analysis service. */
  datatype AnalysisItem = AnalysisItem(id: string, tool: string, finding: Finding)

  datatype ScanStatus = Pending | Processing | Completed

  /** The high/medium/low/info columns of a scan; NULL until the scan is completed. */
  datatype Counters = Counters(high: nat, medium: nat, low: nat, info: nat)

  datatype Scan = Scan(
    id: string,
    projectId: string,
    tool: string,
    status: ScanStatus,
    startedAt: int,
    completedAt: Option<int>,
    totalFindings: int,
    counters: Option<Counters>)

  datatype Project = Project(id: string, name: string, githubRepo: string, createdAt: int)

  /** A snapshot of the three tables, each in insertion order. */
  datatype Db = Db(projects: seq<Project>, scans: seq<Scan>, findings: seq<FindingRow>)

  // ---------------------------------------------------------------------------
  // Counting findings (the COUNT(*) … WHERE … queries and `filter(...).length`)
  // ---------------------------------------------------------------------------

  /** A conjunction of equality tests on project_id, scan_id and severity; None means "any". */
  datatype RowFilter = RowFilter(projectId: Option<string>, scanId: Option<string>, severity: Option<string>)

  const AnyRow := RowFilter(None, None, None)

  predicate Matches(f: RowFilter, r: FindingRow)
  {
    && (f.projectId.Some? ==> r.projectId == f.projectId.value)
    && (f.scanId.Some? ==> r.scanId == f.scanId.value)
    && (f.severity.Some? ==> r.finding.severity == f.severity.value)
  }

  function WithSeverity(f: RowFilter, s: string): RowFilter
  {
    f.(severity := Some(s))
  }

  /** The rows that match `f`, in table order. */
  function Select(rows: seq<FindingRow>, f: RowFilter): (r: seq<FindingRow>)
    ensures |r| <= |rows|
    ensures forall x :: x in r <==> x in rows && Matches(f, x)
  {
    if rows == [] then []
    else
      assert rows == [rows[0]] + rows[1..];
      (if Matches(f, rows[0]) then [rows[0]] else []) + Select(rows[1..], f)
  }

  /** Each matching row is kept as often as it occurs, every other row dropped. */
  lemma {:induction false} SelectMultiset(rows: seq<FindingRow>, f: RowFilter)
    ensures forall x :: multiset(Select(rows, f))[x] == if Matches(f, x) then multiset(rows)[x] else 0
  {
    if rows != [] {
      assert rows == [rows[0]] + rows[1..];
      SelectMultiset(rows[1..], f);
    }
  }

  function CountRows(rows: seq<FindingRow>, f: RowFilter): (n: nat)
    ensures n <= |rows|
    ensures n == |Select(rows, f)|
  {
    if rows == [] then 0
    else (if Matches(f, rows[0]) then 1 else 0) + CountRows(rows[1..], f)
  }

  /** Rows that match `f` and whose severity is none of the five names. */
  function CountUnranked(rows: seq<FindingRow>, f: RowFilter): nat
  {
    if rows == [] then 0
    else (if Matches(f, rows[0]) && !IsNamedSeverity(rows[0].finding.severity) then 1 else 0)
         + CountUnranked(rows[1..], f)
  }

  lemma {:induction false} CountRowsAppend(a: seq<FindingRow>, b: seq<FindingRow>, f: RowFilter)
    ensures CountRows(a + b, f) == CountRows(a, f) + CountRows(b, f)
  {
    if a != [] {
      assert (a + b)[1..] == a[1..] + b;
      CountRowsAppend(a[1..], b, f);
    } else {
      assert a + b == b;
    }
  }

  /** Rows that cannot match add nothing to a count. */
  lemma {:induction false} CountRowsNoMatch(rows: seq<FindingRow>, f: RowFilter)
    requires forall i :: 0 <= i < |rows| ==> !Matches(f, rows[i])
    ensures CountRows(rows, f) == 0
  {
    if rows != [] {
      CountRowsNoMatch(rows[1..], f);
    }
  }

  /** Every matching row has exactly one of the five severities or none of them, so the five
      per-severity counts and the unranked count add up to the whole count. */
  lemma {:induction false} SeverityPartition(rows: seq<FindingRow>, f: RowFilter)
    requires f.severity.None?
    ensures CountRows(rows, WithSeverity(f, Critical)) + CountRows(rows, WithSeverity(f, High))
          + CountRows(rows, WithSeverity(f, Medium)) + CountRows(rows, WithSeverity(f, Low))
          + CountRows(rows, WithSeverity(f, Info)) + CountUnranked(rows, f)
         == CountRows(rows, f)
  {
    if rows != [] {
      SeverityPartition(rows[1..], f);
      var sev := rows[0].finding.severity;
      assert Critical[0] == 'c' && High[0] == 'h' && Medium[0] == 'm' && Low[0] == 'l' && Info[0] == 'i';
      assert Matches(WithSeverity(f, Critical), rows[0]) <==> Matches(f, rows[0]) && sev == Critical;
      assert Matches(WithSeverity(f, High), rows[0]) <==> Matches(f, rows[0]) && sev == High;
      assert Matches(WithSeverity(f, Medium), rows[0]) <==> Matches(f, rows[0]) && sev == Medium;
      assert Matches(WithSeverity(f, Low), rows[0]) <==> Matches(f, rows[0]) && sev == Low;
      assert Matches(WithSeverity(f, Info), rows[0]) <==> Matches(f, rows[0]) && sev == Info;
    }
  }

  // ---------------------------------------------------------------------------
  // Displaying a field: the `|| 'N/A'` of the prompts and the HTML report
  // ---------------------------------------------------------------------------

  const NotAvailable := "N/A"

  /** `s || 'N/A'` on a string. */
  function TextOrNa(s: string): (r: string)
    ensures r != ""
    ensures r == NotAvailable <==> s == "" || s == NotAvailable
    ensures r != NotAvailable ==> r == s
  {
    if s == "" then NotAvailable else s
  }

  /** `line_number || 'N/A'` in a template: NULL and 0 both print as 'N/A'. */
  function LineText(line: Option<int>): (r: string)
    ensures r == NotAvailable <==> line.None? || line.value == 0
    ensures r != NotAvailable ==> r == IntToString(line.value)
    ensures '{' !in r
  {
    if line.None? || line.value == 0 then NotAvailable
    else
      var r := IntToString(line.value);
      assert forall i :: 0 <= i < |r| ==> r[i] != '{';
      r
  }

  /** Two different non-zero line numbers never print alike. */
  lemma {:induction false} LineTextInjective(m: int, n: int)
    requires m != 0 && n != 0
    requires LineText(Some(m)) == LineText(Some(n))
    ensures m == n
  {
    IntToStringInjective(m, n);
  }
}
