# CI/CD scanner core, modelled in Dafny

This project models the deterministic core of a small CI/CD security-scanner service. Scanners
POST their findings to a webhook (`POST /webhooks/:tool`). The handler stores them in three
tables: projects, scans and findings. Read-only API routes then query those tables. An
analysis service builds prompts for a language-model provider and falls back to constant
verdicts. A report generator renders statistics and per-finding text as PDF and HTML.

Modules (one file each):

- `Text` (text.dfy): JavaScript string behaviour the handlers rely on.
  - `${n}` for integers, `Array.prototype.join` and concatenation of blocks.
  - `String.prototype.replace` with a string pattern, which replaces the first occurrence only.
  - `split(c)[0]`, and `toUpperCase` on ASCII.
- `Sorting` (sorting.dfy): `ORDER BY` as a sorted permutation over a lexicographic key, and `LIMIT`.
- `Records` (records.dfy): the row types of the three tables and the open severity vocabulary.
  - The severity rank, the marker and colour tables, including JavaScript's prototype lookup.
  - Filtered counts over the findings table, and the `|| 'N/A'` field rendering.
- `Payloads` (payloads.dfy): the webhook body and the JavaScript `||` defaults applied to it.
  A default fires on any falsy value, so `confidence: 0` becomes 70 and `line_number: 0` becomes NULL.
- `Ingestion` (ingestion.dfy): the webhook handler.
  - `IngestOutcome` is its specification: the tables afterwards, the response, and the batch
    handed to analysis.
  - `Store` is a class whose three table fields `Ingest` updates statement by statement. The
    finding inserts are a loop with invariants. The method is proved to reach exactly
    `IngestOutcome`.
  - Statement failures come from the schema in src/setup-db.js: a duplicate primary key, a
    string longer than its VARCHAR column, or an integer outside the INTEGER range.
  - There is no transaction, so earlier writes survive a later failure.
  - `TablesValid` is the invariant of the tables, and every outcome preserves it.
- `IngestionProperties` (ingestion_properties.dfy): what one ingestion (and two in a row) does
  to the tables.
- `Queries` (queries.dfy): the project list, the scan history, the scan findings, the report
  findings and the dashboard.
- `AiService` (ai_service.dfy): the batch prompt, the single-finding template substitution,
  and the two fallback verdicts.
  - The HTTP call and `JSON.parse` together are one parameter, `provider: string -> ProviderReply<J>`.
- `Report` (report.dfy): the PDF title, repository line and statistics, and the text lines
  written for each finding. Also the HTML statistics and the HTML block of each finding.

Some inputs are nondeterministic: `crypto.randomUUID()`, `Date.now()` and the database's
`NOW()`. They are parameters: `projectUuid`, `findingUuid: nat -> string` (the i-th finding's
UUID) and a `Clock`.

## Model

| member | source | states |
|---|---|---|
| Text.ReplaceFirst | src/ai-service.js:91-97 | `replace` with a string pattern replaces only the first occurrence (no earlier position matches); without one the text is unchanged |
| Text.ReplaceAfterPlainPrefix | src/ai-service.js:91-97 | when the pattern's first character is absent from the text before it, the occurrence replaced is the one right after that text |
| Text.BeforeChar | src/ai-service.js:95 | `split(c)[0]` is the longest prefix without `c`; it ends at the end of the text or just before the first `c` |
| Text.UpperAscii | src/report-generator.js:74 | `toUpperCase` maps each character through the ASCII upper-casing and keeps the length |
| Text.IntToString | src/ai-service.js:46 | `${n}` is a minus sign (for negatives) followed by the shortest decimal numeral of the magnitude |
| Text.IntToStringInjective | src/ai-service.js:45-46 | different integers print differently |
| Text.JoinLayout | src/ai-service.js:47 | `join(sep)` holds part i at its offset, followed by the separator and the join of the later parts, or by nothing after the last part |
| Sorting.SortBy | src/routes/api.js:65-73 | `ORDER BY` yields a permutation of its input in key order |
| Sorting.Take | src/routes/api.js:48 | `LIMIT n` keeps the first min(n, length) rows |
| Sorting.TakeKeepsLeast | src/routes/api.js:47-48 | after sorting, every row the limit drops has a key no smaller than any row it keeps |
| Records.SeverityRank | src/routes/api.js:66-72 | the CASE gives NULL exactly for a severity outside the five names, and otherwise the name's position in critical, high, medium, low, info (1 to 5) |
| Records.MarkerTable | src/ai-service.js:39-41 | the marker comes from the five-entry table, a named severity gets the entry at its own rank, and the marker is '⚪' exactly for a severity other than critical, high, medium and low (the same table is at src/report-generator.js:58-68) |
| Records.MarkerAsWritten | src/report-generator.js:58-68 | the lookup as written: a name inherited from Object.prototype finds that member instead of the '⚪' default |
| Records.InheritedSeverityMarker | src/report-generator.js:68 | severity "toString" gets an inherited function where '⚪' is intended |
| Records.SeverityColor | src/report-generator.js:108-114 | exactly the five named severities have a colour, and each has the table's colour at its rank |
| Records.Select | src/routes/api.js:62-64 | a WHERE clause keeps exactly the matching rows |
| Records.SelectMultiset | src/routes/api.js:62-64 | each matching row is kept as often as it occurs, and every other row is dropped |
| Records.CountRows | src/routes/api.js:129-132 | `COUNT(*) … WHERE` is the number of selected rows, at most the table size |
| Records.CountRowsAppend | src/routes/webhooks.js:95-98 | a count over appended rows is the sum of the counts over the two parts |
| Records.SeverityPartition | src/routes/webhooks.js:92-100 | the five per-severity counts plus the unranked count add up to the whole count |
| Records.TextOrNa | src/ai-service.js:43-44 | `s \|\| 'N/A'` is non-empty, is 'N/A' exactly for an empty (or literal 'N/A') text, and is otherwise `s` |
| Records.LineText | src/ai-service.js:45 | `line_number \|\| 'N/A'` is 'N/A' exactly for NULL and 0, and is otherwise the decimal line number |
| Records.LineTextInjective | src/report-generator.js:167 | two different non-zero line numbers never print alike |
| Payloads.NormalizeFinding | src/routes/webhooks.js:69-74 | each falsy field becomes its default ('medium', 'Unknown', '', '', NULL, 70) and each truthy field passes unchanged; the result is normalised |
| Payloads.NormalizeFixesNormalized | src/routes/webhooks.js:82-87 | a normalised finding sent again is stored with the same fields |
| Payloads.NormalizeIdempotent | src/routes/webhooks.js:69-74 | normalisation is idempotent, and the element's own `tool` plays no part in it |
| Payloads.ScanIdFor | src/routes/webhooks.js:22 | a truthy `scan_id` is used as is; otherwise the id is 'scan-' followed by a numeral that reads back as the timestamp |
| Ingestion.FindProject | src/routes/webhooks.js:32-45 | the SELECT by repository takes the first matching row, and finds none exactly when no row matches |
| Ingestion.IngestOutcome | src/routes/webhooks.js:18-115 | 400 exactly when `findings` is not an array, with nothing written; analysis is requested exactly on 200; the 200 response carries the scan id and the element count, and the batch has one item per element |
| Ingestion.Store.Ingest | src/routes/webhooks.js:18-115 | the handler, statement by statement on the three table fields, reaches exactly the tables, response and batch of `IngestOutcome`, and keeps the tables valid |
| Ingestion.Store.InsertFindings | src/routes/webhooks.js:57-101 | the insert loop plus the completing UPDATE: it stops at the first failing INSERT, keeping the rows before it; otherwise it completes the scan |
| Ingestion.Store.constructor | src/setup-db.js:19-63 | the tables start empty and valid |
| Ingestion.InsertedPrefixFits | src/routes/webhooks.js:57-77 | each row the loop got in was insertable when its turn came |
| Ingestion.NewRowsShape | src/routes/webhooks.js:64-76 | row i carries the i-th UUID, the project, the scan id, the route's tool, status 'open' and element i normalised |
| Ingestion.ProjectStageValid | src/routes/webhooks.js:32-46 | get-or-create keeps the tables valid and yields the id of a stored project |
| Ingestion.ScanStageValid | src/routes/webhooks.js:49-53 | inserting the processing scan keeps the tables valid, and that scan has no findings yet |
| Ingestion.RowsStageValid | src/routes/webhooks.js:57-89 | the rows that get in keep the tables valid, and the scan then has exactly that many |
| Ingestion.CompleteStageValid | src/routes/webhooks.js:92-101 | the completing UPDATE keeps the tables valid once the scan has all its findings |
| Ingestion.CompleteScanKeepsKeys | src/routes/webhooks.js:92-101 | the UPDATE changes no id, project reference or column fit |
| Ingestion.IngestPreservesValid | src/setup-db.js:19-63 | after every outcome the keys are unique, the rows fit their columns, the references resolve, each finding belongs to its scan's project, and each scan agrees with its findings |
| IngestionProperties.RepoCountFound | src/routes/webhooks.js:32-38 | the SELECT finds a project exactly when some project has that repository |
| IngestionProperties.CompleteNewScan | src/routes/webhooks.js:92-101 | the UPDATE of the newly appended scan leaves every earlier scan unchanged |
| IngestionProperties.IngestAppendsOnly | src/routes/webhooks.js:18-115 | every old row stays as a prefix; at most one project and one scan are added; findings are added only with a new scan |
| IngestionProperties.AcceptedPath | src/routes/webhooks.js:27-109 | a 200 went through every stage: project, scan insert, every finding insert, then the update |
| IngestionProperties.InsertedRowsFresh | src/routes/webhooks.js:58-63 | rows that all went in have ids that are new to the table and distinct from each other |
| IngestionProperties.AcceptedStoresEveryFinding | src/routes/webhooks.js:57-89 | on 200, one row per element is appended in order, each with a fresh id, the repository's project, the scan id, the route's tool, status 'open' and the normalised fields; the analysis item has the same id and fields |
| IngestionProperties.AcceptedCompletesScan | src/routes/webhooks.js:49-100 | on 200, the one new scan is completed with the start/completion times and `total_findings` = element count = its stored findings; counters count high/medium/low/info; critical and unranked findings are in no counter |
| IngestionProperties.NewScanCount | src/routes/webhooks.js:95-98 | a scan id new to the table counts exactly the rows appended for it |
| IngestionProperties.CompletedCountersPartition | src/routes/webhooks.js:92-100 | a completed scan's four counters plus its critical and unranked findings add up to its total |
| IngestionProperties.FailureKeepsEarlierWork | src/routes/webhooks.js:111-113 | on 500, no analysis is made and nothing is undone; a failed scan insert writes no finding; a failed row insert leaves the earlier rows (a payload prefix) and a processing scan without counters |
| IngestionProperties.DuplicateScanIdFails | src/setup-db.js:52 | a scan id already in the table gives 500, with no scan and no finding written |
| IngestionProperties.GetOrCreateProjectRow | src/routes/webhooks.js:32-46 | an existing repository's project is reused with nothing added; otherwise exactly the project named `project_name \|\| 'Unnamed Project'` is added, or the call fails with nothing written |
| IngestionProperties.IngestRepoCounts | src/routes/webhooks.js:32-46 | a repository with a project keeps its count; one without gets at most one; after 200 it has at least one; every other repository's count is unchanged |
| IngestionProperties.SequentialIngestionsShareProject | src/routes/webhooks.js:32-46 | two ingestions in a row for one repository leave at most one project for it, and after a 200 the second adds none |
| Queries.Summarize | src/routes/api.js:20-29 | the LEFT JOIN row: NULL aggregates exactly when the project has no findings; otherwise its total, high and medium counts |
| Queries.CountZeroMeansNone | src/routes/api.js:24-28 | a count is zero exactly when no row matches |
| Queries.ProjectList | src/routes/api.js:20-31 | the joined rows as a permutation, sorted by `created_at` descending |
| Queries.ProjectListEachOnce | src/routes/api.js:20-31 | with unique ids, every project appears exactly once with its own aggregates, newest first |
| Queries.ProjectScans | src/routes/api.js:45-46 | exactly the project's scans |
| Queries.ScanHistory | src/routes/api.js:44-49 | min(50, number of the project's scans) rows, all of them the project's, with `started_at` descending |
| Queries.ScanHistoryKeepsNewest | src/routes/api.js:47-48 | a scan left out started no later than any scan shown; with at most 50 scans, none is left out |
| Queries.RankOrLast | src/routes/api.js:65-72 | the ascending CASE position puts unranked severities (NULL) last, after info |
| Queries.ScanFindings | src/routes/api.js:62-74 | a permutation of exactly the rows matching both project and scan, in key order |
| Queries.ScanFindingsOrder | src/routes/api.js:65-73 | critical, high, medium, low, info, then unranked, with higher confidence first within a rank |
| Queries.ProjectById | src/routes/api.js:92-95 | returns a project with that id, and finds none exactly when no row has it |
| Queries.ReportFindings | src/routes/api.js:92-104 | 404 exactly for an unknown project; otherwise the project's findings, restricted to the scan only when `scanId` is truthy |
| Queries.SelectSelect | src/routes/api.js:98-102 | filtering by project and then by scan equals filtering by both |
| Queries.ReportScanFilter | src/routes/api.js:98-104 | without a scan id the report has all the project's findings; with one it has that scan's findings in table order, the same rows as the scan-findings route |
| Queries.Dashboard | src/routes/api.js:129-139 | the project and scan counts, and the counts of critical and of high findings |
| Queries.DashboardAfterIngest | src/routes/api.js:129-139 | a 200 ingestion adds one scan, at most one project, and the critical/high elements of the payload to the two counts |
| Queries.NewRowsSeverities | src/routes/webhooks.js:69 | the new rows of a severity are the payload elements whose normalised severity is it |
| AiService.BlockLines | src/ai-service.js:40-46 | a block has seven lines, the first one empty because the template literal opens with a line break |
| AiService.BatchPromptLayout | src/ai-service.js:38-47 | the prompt holds one block per finding in input order, separated by '\n\n---\n\n' |
| AiService.BatchBlockHeadline | src/ai-service.js:39-41 | a block opens with a line break and the severity's marker, which is '⚪' for an unnamed severity |
| AiService.AnalyzeFindings | src/ai-service.js:36-87 | one analysis per batch: the provider's parsed reply, or the batch fallback on any failure |
| AiService.FailedBatchesAgree | src/ai-service.js:80-85 | any two failed batches get the same verdict (confidence 50); the single fallback is it with only the first recommendation |
| AiService.FileOf | src/ai-service.js:95 | 'N/A' when the location is empty or starts with ':'; otherwise exactly the non-empty part before the first ':' (all of the location when it has none) |
| AiService.SingleValues | src/ai-service.js:91-97 | the seven values, in the order of the replace calls |
| AiService.ChainFillsInOrder | src/ai-service.js:91-97 | a replace chain fills the placeholders in order when no earlier text and no value contains the placeholders' first character |
| AiService.SinglePromptFilled | src/ai-service.js:9-34 | when no value holds '{', the prompt is the template's text with the seven values in the placeholders' places |
| AiService.TemplatePlain | src/ai-service.js:9-17 | every placeholder starts with '{', and no template text before the last placeholder contains '{' |
| AiService.AnalyzeSingle | src/ai-service.js:89-129 | the provider's parsed reply, or the single-finding fallback on any failure |
| Report.PdfTitle | src/report-generator.js:23 | the project name, or 'Security Report' when it is empty |
| Report.RepoText | src/report-generator.js:24 | the repository, or 'N/A' when it is empty (the same line is at :137) |
| Report.PdfStatistics | src/report-generator.js:40-46 | the total, and the exact-match counts of critical, high, medium and low, whose sum is at most the total |
| Report.PdfStatisticsOmit | src/report-generator.js:40-46 | what the four counts miss is exactly the info findings plus the unranked ones |
| Report.HtmlStatistics | src/report-generator.js:141-156 | the total, critical, high and medium counts |
| Report.ReportsAgree | src/report-generator.js:141-156 | the HTML boxes equal the PDF's numbers, and what they leave out includes every low finding |
| Report.PdfFindingLinesShape | src/report-generator.js:71-86 | headline, then the upper-cased severity, then description, location and line, each only when truthy (line 0 is omitted) |
| Report.PdfStatLinesCounts | src/report-generator.js:40-50 | five lines, one per statistics entry in order; line k is the k-th label, ': ' and a numeral that reads back as the total or the exact-match count of critical, high, medium or low |
| Report.WritePdfReport | src/report-generator.js:15-97 | the `doc.text` calls, with a loop over the statistics entries, write exactly `PdfText`: header, statistics, findings, watermark |
| Report.PdfTextLayout | src/report-generator.js:23-95 | the PDF's lines are the title, the GitHub and date lines, the statistics lines, every finding's lines in order, then the watermark |
| Report.WritePdfFindings | src/report-generator.js:66-89 | the `forEach` writes exactly the lines of the findings, one finding after another |
| Report.PdfFindingsInOrder | src/report-generator.js:66-71 | finding i's lines come right after the earlier findings' lines, headed by marker, number i+1 and title |
| Report.ColorText | src/report-generator.js:162 | a named severity prints its own colour from the table; any other prints 'undefined' |
| Report.HtmlFindingsInOrder | src/report-generator.js:160-169 | block i is finding i's block, placed right after the earlier blocks with nothing between |
| Report.HtmlNumbering | src/report-generator.js:163 | the number line reads back as position + 1, so no two blocks share a number line |

## Left out

- The HTTP shell (Express, middleware, server start, console logging, dotenv): src/server.js and index.js are not part of this model.
- Database plumbing (the `pg` pool, connections, the DDL itself): SQL is modelled as operations on in-memory sequences, and the schema's keys and column widths as invariants and failure conditions.
- Connection outages and other database errors that do not follow from the schema are not modelled.
- PostgreSQL's silent truncation of trailing spaces beyond a VARCHAR width is treated as an overflow failure.
- Concurrency: ingestions are sequential. The race between two first-time ingestions of one repository (read then insert, with no unique constraint on `github_repo`) is not modelled.
- Tie order: SQL leaves the order among rows with equal sort keys open. The model sorts with one fixed algorithm, and its contracts promise only sortedness and permutation.
- Ingestion.FindProject: PostgreSQL returns the SELECT's rows in no defined order. The model takes the first row in table order.
- Queries.Dashboard, Queries.Summarize: `COUNT(*)` and `COUNT(CASE …)` come back from `pg` as decimal strings (the dashboard counts and the project list's total_findings, high_severity and medium_severity). The model returns natural numbers.
- Queries.ReportFindings: the findings query has no ORDER BY. The model returns the rows in table order, and its contract states only which rows they are.
- A `null` element in the `findings` array is not modelled: reading its `severity` throws at src/routes/webhooks.js:69, after the scan row and the earlier elements' rows are written, so the request ends in 500 with the scan left 'processing' and a prefix of the rows stored, as for a failing INSERT.
- Payload values outside the modelled types are not modelled: a non-string severity, title, description or location, a fractional number, or an object. A missing field and null are both `None`.
- `String.prototype.replace` replacement patterns such as `$&` in a substituted value are not modelled.
- AiService.SinglePromptFilled: the result is stated only for values without '{'. A value holding a later placeholder can make a later `replace` hit text that came from an earlier value.
- The provider call (axios, credentials, model name, token limits) and `JSON.parse` are one abstract `provider` parameter. The reply is not validated, just as in the source.
- The fire-and-forget `analyzeFindingsWithAI(...)` at src/routes/webhooks.js:104-106 is modelled as the batch the handler hands over. Its result is discarded by the source, so nothing is written back.
- src/routes/webhooks.js:3 imports `./ai-service.js` relative to `src/routes/`, where no such file exists. The model connects the handler to the analysis module as intended.
- Text.UpperAscii: `toUpperCase` is modelled on ASCII letters only. Other characters are kept as they are.
- PDF rendering (fonts, sizes, indents, colours, page layout, the byte stream) and the HTML head, CSS and date are not modelled. The PDF's text lines are modelled, with the formatted date as a parameter.
- Report.ColorText: a severity that names an Object.prototype member prints that member, not 'undefined'. This is the same lookup as in the Findings row below.
- Records.Marker: the model uses the intended marker ('⚪' for every severity outside the table). The as-written lookup is `Records.MarkerAsWritten`.
- Test drivers (tests/real-scan-test.js, tests/scan-repo.js, tests/test-webhook.js) are HTTP and database scripts and are not part of this model.

## Findings

| source | as written | input that shows it | evidently intended | confidence | as-written member | corrected member |
|---|---|---|---|---|---|---|
| src/ai-service.js:39-41 | `severityColors[f.severity] \|\| '⚪'` (and the same lookup at src/report-generator.js:68) looks the severity up on an object literal, so a name inherited from Object.prototype finds a function. The function is truthy, so the default is skipped | a finding with severity "toString" (stored as given, being a non-empty string) | the '⚪' marker for every severity outside the table | medium, not executed | Records.InheritedSeverityMarker | Records.MarkerTable |
