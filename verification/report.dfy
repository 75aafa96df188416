/** What the reports of src/report-generator.js say about a project and its findings: the
    title and repository lines, the statistics of the PDF and the HTML report, the text lines
    the PDF writes, and the HTML block of each finding. Fonts, sizes, layout and the byte
    stream are not part of this model. */
module Report {
  import opened Text
  import opened Records

  // ---------------------------------------------------------------------------
  // Title and repository
  // ---------------------------------------------------------------------------

  const DefaultTitle := "Security Report"

  /** The PDF's title: the project name, or 'Security Report' when the name is empty. */
  function PdfTitle(p: Project): (r: string)
    ensures r != ""
    ensures p.name != "" ==> r == p.name
    ensures p.name == "" ==> r == DefaultTitle
  {
    if p.name == "" then DefaultTitle else p.name
  }

  /** The repository shown by both reports, 'N/A' when it is empty. */
  function RepoText(p: Project): (r: string)
    ensures r != ""
    ensures p.githubRepo != "" && p.githubRepo != NotAvailable ==> r == p.githubRepo
    ensures p.githubRepo == "" ==> r == NotAvailable
  {
    TextOrNa(p.githubRepo)
  }

  // ---------------------------------------------------------------------------
  // Statistics
  // ---------------------------------------------------------------------------

  function BySeverity(s: string): RowFilter { WithSeverity(AnyRow, s) }

  datatype PdfStats = PdfStats(total: nat, critical: nat, high: nat, medium: nat, low: nat)

  /** 'Total Findings' and the four `filter(f => f.severity === …).length` counts. */
  function PdfStatistics(findings: seq<FindingRow>): (s: PdfStats)
    ensures s.total == |findings|
    ensures s.critical == |Select(findings, BySeverity(Critical))|
    ensures s.high == |Select(findings, BySeverity(High))|
    ensures s.medium == |Select(findings, BySeverity(Medium))|
    ensures s.low == |Select(findings, BySeverity(Low))|
    ensures s.critical + s.high + s.medium + s.low <= s.total
  {
    SeverityPartition(findings, AnyRow);
    AnyRowCountsAll(findings);
    PdfStats(|findings|,
             CountRows(findings, BySeverity(Critical)), CountRows(findings, BySeverity(High)),
             CountRows(findings, BySeverity(Medium)), CountRows(findings, BySeverity(Low)))
  }

  lemma {:induction false} AnyRowCountsAll(rows: seq<FindingRow>)
    ensures CountRows(rows, AnyRow) == |rows|
  {
    if rows != [] {
      AnyRowCountsAll(rows[1..]);
    }
  }

  /** What the four severity lines leave out is exactly the info findings and those of a
      severity outside the five names. */
  lemma {:induction false} PdfStatisticsOmit(findings: seq<FindingRow>)
    ensures var s := PdfStatistics(findings);
      s.total - (s.critical + s.high + s.medium + s.low)
      == CountRows(findings, BySeverity(Info)) + CountUnranked(findings, AnyRow)
  {
    SeverityPartition(findings, AnyRow);
    AnyRowCountsAll(findings);
  }

  /** The keys of the statistics object, in the order `Object.entries` lists them. */
  const StatLabels := ["Total Findings", "Critical", "High", "Medium", "Low"]

  function StatValues(s: PdfStats): seq<nat>
  {
    [s.total, s.critical, s.high, s.medium, s.low]
  }

  /** The `${label}: ${value}` lines the PDF prints, one per entry of the statistics object. */
  function PdfStatLines(s: PdfStats): (r: seq<string>)
    ensures |r| == |StatLabels|
  {
    seq(|StatLabels|, k requires 0 <= k < |StatLabels| => StatLabels[k] + ": " + NatToString(StatValues(s)[k]))
  }

  /** A labelled line reads back as its key and its number. */
  lemma {:induction false} LabelledLineReadBack(key: string, n: nat)
    ensures var line := key + ": " + NatToString(n);
      && line[..|key|] == key && line[|key|..|key| + 2] == ": "
      && AllDigits(line[|key| + 2..]) && ParseNat(line[|key| + 2..]) == n
  {
    var line := key + ": " + NatToString(n);
    assert line[|key| + 2..] == NatToString(n);
    ParseNatToString(n);
  }

  /** The PDF's statistics lines: line k carries the k-th label of the statistics object and,
      after ": ", a numeral that reads back as that label's count over the findings: the
      total, then the exact-match counts of critical, high, medium and low. */
  lemma {:induction false} PdfStatLinesCounts(findings: seq<FindingRow>)
    ensures var r := PdfStatLines(PdfStatistics(findings));
      var counts := [|findings|, |Select(findings, BySeverity(Critical))|, |Select(findings, BySeverity(High))|,
                     |Select(findings, BySeverity(Medium))|, |Select(findings, BySeverity(Low))|];
      && |r| == 5
      && forall k :: 0 <= k < 5 ==>
           && |r[k]| > |StatLabels[k]| + 2
           && r[k][..|StatLabels[k]|] == StatLabels[k]
           && r[k][|StatLabels[k]|..|StatLabels[k]| + 2] == ": "
           && AllDigits(r[k][|StatLabels[k]| + 2..])
           && ParseNat(r[k][|StatLabels[k]| + 2..]) == counts[k]
  {
    var s := PdfStatistics(findings);
    var r := PdfStatLines(s);
    forall k | 0 <= k < 5
      ensures && |r[k]| > |StatLabels[k]| + 2
              && r[k][..|StatLabels[k]|] == StatLabels[k]
              && r[k][|StatLabels[k]|..|StatLabels[k]| + 2] == ": "
              && AllDigits(r[k][|StatLabels[k]| + 2..])
              && ParseNat(r[k][|StatLabels[k]| + 2..]) == StatValues(s)[k]
    {
      LabelledLineReadBack(StatLabels[k], StatValues(s)[k]);
    }
  }

  datatype HtmlStats = HtmlStats(total: nat, critical: nat, high: nat, medium: nat)

  /** The HTML report's four stat boxes: no low count, and none for info. */
  function HtmlStatistics(findings: seq<FindingRow>): (s: HtmlStats)
    ensures s.total == |findings|
    ensures s.critical == |Select(findings, BySeverity(Critical))|
    ensures s.high == |Select(findings, BySeverity(High))|
    ensures s.medium == |Select(findings, BySeverity(Medium))|
  {
    HtmlStats(|findings|, CountRows(findings, BySeverity(Critical)),
              CountRows(findings, BySeverity(High)), CountRows(findings, BySeverity(Medium)))
  }

  /** The two reports agree on every number they both show; the HTML boxes add up to no more
      than the total, and what they leave out includes every low finding. */
  lemma {:induction false} ReportsAgree(findings: seq<FindingRow>)
    ensures var p := PdfStatistics(findings);
      var h := HtmlStatistics(findings);
      && h == HtmlStats(p.total, p.critical, p.high, p.medium)
      && h.total - (h.critical + h.high + h.medium) >= p.low
  {
  }

  // ---------------------------------------------------------------------------
  // The PDF's lines for each finding
  // ---------------------------------------------------------------------------

  /** The first line of finding `index`: marker, number from 1, title. */
  function Headline(index: nat, f: Finding): string
  {
    Marker(f.severity) + " " + NatToString(index + 1) + ". " + f.title
  }

  /** The lines written for finding `index`. */
  function PdfFindingLines(index: nat, f: Finding): seq<string>
  {
    [Headline(index, f), "Severity: " + UpperAscii(f.severity)]
    + (if f.description != "" then ["Description: " + f.description] else [])
    + (if f.location != "" then ["Location: " + f.location] else [])
    + (if f.lineNumber.Some? && f.lineNumber.value != 0 then ["Line: " + IntToString(f.lineNumber.value)] else [])
  }

  /** A finding's lines are its headline and its upper-cased severity, then description,
      location and line, each only when it is truthy: an empty description or location and a
      line of NULL or 0 print nothing. */
  lemma {:induction false} PdfFindingLinesShape(index: nat, f: Finding)
    ensures var r := PdfFindingLines(index, f);
      && |r| == 2 + (if f.description != "" then 1 else 0) + (if f.location != "" then 1 else 0)
                  + (if LineText(f.lineNumber) != NotAvailable then 1 else 0)
      && r[0] == Headline(index, f) && r[1] == "Severity: " + UpperAscii(f.severity)
      && (f.description != "" ==> r[2] == "Description: " + f.description)
      && (f.location != "" ==> r[if f.description != "" then 3 else 2] == "Location: " + f.location)
      && (LineText(f.lineNumber) != NotAvailable ==> r[|r| - 1] == "Line: " + IntToString(f.lineNumber.value))
  {
  }

  /** The lines of each finding, in the order of the findings. */
  function PdfBlocks(findings: seq<FindingRow>): (r: seq<seq<string>>)
    ensures |r| == |findings|
  {
    seq(|findings|, k requires 0 <= k < |findings| => PdfFindingLines(k, findings[k].finding))
  }

  /** Every line the PDF writes for its findings. */
  function PdfLines(findings: seq<FindingRow>): seq<string>
  {
    Concat(PdfBlocks(findings))
  }

  /** The `findings.forEach` of the PDF: the text lines written, in order. */
  method WritePdfFindings(findings: seq<FindingRow>) returns (lines: seq<string>)
    ensures lines == PdfLines(findings)
  {
    ghost var blocks := PdfBlocks(findings);
    lines := [];
    assert blocks[..0] == [];
    for i := 0 to |findings|
      invariant lines == Concat(blocks[..i])
    {
      ConcatSnoc(blocks, i);
      lines := lines + PdfFindingLines(i, findings[i].finding);
    }
    assert blocks[..|findings|] == blocks;
  }

  /** The lines of finding `i` come right where the lines of the findings before it end, and
      the first of them is its headline, numbered i + 1. */
  lemma {:induction false} PdfFindingsInOrder(findings: seq<FindingRow>, i: nat)
    requires i < |findings|
    ensures var blocks := PdfBlocks(findings);
      var start := |Concat(blocks[..i])|;
      && blocks[i] == PdfFindingLines(i, findings[i].finding)
      && start + |blocks[i]| <= |PdfLines(findings)|
      && PdfLines(findings)[start..start + |blocks[i]|] == blocks[i]
      && start < |PdfLines(findings)|
      && PdfLines(findings)[start] == Headline(i, findings[i].finding)
  {
    var blocks := PdfBlocks(findings);
    ConcatPartAt(blocks, i);
    HeadlineFirst(i, findings[i].finding);
    var start := |Concat(blocks[..i])|;
    assert PdfLines(findings)[start] == PdfLines(findings)[start..start + |blocks[i]|][0];
  }

  lemma {:induction false} HeadlineFirst(index: nat, f: Finding)
    ensures |PdfFindingLines(index, f)| >= 2 && PdfFindingLines(index, f)[0] == Headline(index, f)
  {
    PdfFindingLinesShape(index, f);
  }

  // ---------------------------------------------------------------------------
  // The whole text of the PDF
  // ---------------------------------------------------------------------------

  const StatisticsHeading := "📊 Statistics"
  const FindingsHeading := "🔧 Security Findings"
  const Watermark := "CONFIDENTIAL"

  /** Every text line of the PDF, in the order it is written; `date` is the formatted date. */
  function PdfText(p: Project, findings: seq<FindingRow>, date: string): seq<string>
  {
    [PdfTitle(p), "GitHub: " + RepoText(p), "Generated: " + date, StatisticsHeading]
    + PdfStatLines(PdfStatistics(findings))
    + [FindingsHeading] + PdfLines(findings) + [Watermark]
  }

  /** `generatePDFReport` as its sequence of `doc.text` calls: the header lines, one line per
      statistics entry, the findings' lines and the watermark. */
  method WritePdfReport(p: Project, findings: seq<FindingRow>, date: string) returns (lines: seq<string>)
    ensures lines == PdfText(p, findings, date)
  {
    lines := [PdfTitle(p), "GitHub: " + RepoText(p), "Generated: " + date, StatisticsHeading];
    ghost var head := lines;
    var stats := PdfStatistics(findings);
    var values := StatValues(stats);
    for k := 0 to |StatLabels|
      invariant lines == head + PdfStatLines(stats)[..k]
    {
      assert PdfStatLines(stats)[..k + 1] == PdfStatLines(stats)[..k] + [StatLabels[k] + ": " + NatToString(values[k])];
      lines := lines + [StatLabels[k] + ": " + NatToString(values[k])];
    }
    assert PdfStatLines(stats)[..|StatLabels|] == PdfStatLines(stats);
    var body := WritePdfFindings(findings);
    lines := lines + [FindingsHeading] + body + [Watermark];
  }

  /** The PDF opens with the title, the repository and the date, then come the statistics
      lines and every finding's lines in order, and the watermark ends it. */
  lemma {:induction false} PdfTextLayout(p: Project, findings: seq<FindingRow>, date: string)
    ensures var r := PdfText(p, findings, date);
      var n := |PdfLines(findings)|;
      && |r| == 11 + n
      && r[0] == PdfTitle(p) && r[1] == "GitHub: " + RepoText(p) && r[2] == "Generated: " + date
      && r[4..9] == PdfStatLines(PdfStatistics(findings))
      && r[10..10 + n] == PdfLines(findings)
      && r[10 + n] == Watermark
  {
  }

  // ---------------------------------------------------------------------------
  // The HTML block of each finding
  // ---------------------------------------------------------------------------

  /** `${severityColors[f.severity]}`: the colour, or the text 'undefined' when the table lacks it. */
  function ColorText(severity: string): (r: string)
    ensures IsNamedSeverity(severity) <==> r != "undefined"
    ensures IsNamedSeverity(severity) ==> r == Colors[SeverityRank(severity).value - 1]
  {
    match SeverityColor(severity)
    case Some(c) => c
    case None => "undefined"
  }

  /** The line of a block that carries the number and the title. */
  function NumberLine(index: nat, f: Finding): string
  {
    "        " + (NatToString(index + 1) + TitleAfterNumber(f))
  }

  /** What follows the number: a '.', the title and the upper-cased severity. */
  function TitleAfterNumber(f: Finding): (r: string)
    ensures |r| > 0 && r[0] == '.'
  {
    ". " + f.title + " <span class=\"severity\">" + UpperAscii(f.severity) + "</span>"
  }

  // The fixed text of a finding's block in the HTML template.
  const FindingOpen := "    <div class=\"finding "
  const TagEnd := "\">"
  const ColorOpen := "      <div style=\"color: "
  const ColorClose := "; font-weight: bold;\">"
  const DivClose := "      </div>"
  const DescriptionOpen := "      <p><strong>Description:</strong> "
  const LocationOpen := "      <p><strong>Location:</strong> "
  const LineOpen := "      <p><strong>Line:</strong> "
  const ParagraphClose := "</p>"
  const FindingClose := "    </div>"
  const BlockTrailer := "  "

  /** The lines of the template for finding `index`; description, location and line print
      'N/A' when falsy. */
  function HtmlFindingLines(index: nat, f: Finding): seq<string>
  {
    ["",
     FindingOpen + f.severity + TagEnd,
     ColorOpen + ColorText(f.severity) + ColorClose,
     NumberLine(index, f),
     DivClose,
     DescriptionOpen + TextOrNa(f.description) + ParagraphClose,
     LocationOpen + TextOrNa(f.location) + ParagraphClose,
     LineOpen + LineText(f.lineNumber) + ParagraphClose,
     FindingClose,
     BlockTrailer]
  }

  function HtmlFinding(index: nat, f: Finding): string
  {
    Join(HtmlFindingLines(index, f), "\n")
  }

  function HtmlBlocks(findings: seq<FindingRow>): (r: seq<string>)
    ensures |r| == |findings|
  {
    seq(|findings|, k requires 0 <= k < |findings| => HtmlFinding(k, findings[k].finding))
  }

  /** `findings.map(…).join('')`. */
  function HtmlFindings(findings: seq<FindingRow>): string
  {
    Join(HtmlBlocks(findings), "")
  }

  /** The HTML blocks follow the findings in order with nothing between them: block `i` is
      the block of finding `i`, numbered i + 1, and starts where the blocks before it end. */
  lemma {:induction false} HtmlFindingsInOrder(findings: seq<FindingRow>, i: nat)
    requires i < |findings|
    ensures var blocks := HtmlBlocks(findings);
      && blocks[i] == HtmlFinding(i, findings[i].finding)
      && Offset(blocks, "", i) + |blocks[i]| <= |HtmlFindings(findings)|
      && HtmlFindings(findings)[Offset(blocks, "", i)..Offset(blocks, "", i) + |blocks[i]|] == blocks[i]
  {
    JoinPartAt(HtmlBlocks(findings), "", i);
  }

  /** The number in a block reads back as the finding's position plus one, so no two
      blocks carry the same number line. */
  lemma {:induction false} HtmlNumbering(i: nat, j: nat, f: Finding, g: Finding)
    ensures ParseNat(NatToString(i + 1)) == i + 1
    ensures NumberLine(i, f) == NumberLine(j, g) ==> i == j
  {
    ParseNatToString(i + 1);
    ParseNatToString(j + 1);
    var a := NatToString(i + 1);
    var b := NatToString(j + 1);
    var x := TitleAfterNumber(f);
    var y := TitleAfterNumber(g);
    var pad := "        ";
    if NumberLine(i, f) == NumberLine(j, g) {
      assert (pad + (a + x))[|pad|..] == a + x;
      assert (pad + (b + y))[|pad|..] == b + y;
      NumeralPrefix(a, b, x, y);
    }
  }

  /** Two numerals, each followed by a '.', that start the same text are the same numeral. */
  lemma {:induction false} NumeralPrefix(a: string, b: string, x: string, y: string)
    requires AllDigits(a) && AllDigits(b)
    requires |x| > 0 && |y| > 0 && x[0] == '.' && y[0] == '.'
    requires a + x == b + y
    ensures a == b
  {
    FirstDot(a, x);
    FirstDot(b, y);
    assert |a| == |b|;
    assert a == (a + x)[..|a|];
    assert b == (b + y)[..|b|];
  }

  /** In a numeral followed by a '.', the first '.' is right after the numeral. */
  lemma {:induction false} FirstDot(a: string, x: string)
    requires AllDigits(a) && |x| > 0 && x[0] == '.'
    ensures (a + x)[|a|] == '.'
    ensures forall j :: 0 <= j < |a| ==> (a + x)[j] != '.'
  {
  }
}
