/** The text side of the analysis service (src/ai-service.js): the prompt built for a batch
    of findings, the prompt built for one finding from a template, and the constant verdicts
    returned when the provider call or the parsing of its reply fails. The HTTP call and
    `JSON.parse` are one parameter: what the provider's reply turned out to be for a prompt. */
module AiService {
  import opened Text
  import opened Records

  // ---------------------------------------------------------------------------
  // analyzeFindingsWithAI: one block per finding, joined by a rule
  // ---------------------------------------------------------------------------

  const BlockSeparator := "\n\n---\n\n"

  /** The lines of one finding's block: an empty first line (the template literal opens
      with a line break), the marker and headline, then severity, description, location,
      line and confidence. */
  function BlockLines(f: AnalysisItem): (lines: seq<string>)
    ensures |lines| == 7 && lines[0] == ""
  {
    ["",
     Marker(f.finding.severity) + (" " + f.tool + " - " + f.finding.title),
     "Severity: " + f.finding.severity,
     "Description: " + TextOrNa(f.finding.description),
     "Location: " + TextOrNa(f.finding.location),
     "Line: " + LineText(f.finding.lineNumber),
     "Confidence: " + IntToString(f.finding.confidence) + "/100"]
  }

  function BatchBlock(f: AnalysisItem): string
  {
    Join(BlockLines(f), "\n")
  }

  function Blocks(items: seq<AnalysisItem>): (r: seq<string>)
    ensures |r| == |items|
  {
    seq(|items|, k requires 0 <= k < |items| => BatchBlock(items[k]))
  }

  /** The user message of the batch request. */
  function BatchPrompt(items: seq<AnalysisItem>): string
  {
    Join(Blocks(items), BlockSeparator)
  }

  /** The batch prompt holds the blocks of the findings in input order: block `i` is the
      block of finding `i`, starts at a position fixed by the blocks before it, and is
      followed by the separator and the blocks after it, or by nothing when it is the last. */
  lemma {:induction false} BatchPromptLayout(items: seq<AnalysisItem>, i: nat)
    requires i < |items|
    ensures var blocks := Blocks(items);
      && blocks[i] == BatchBlock(items[i])
      && Offset(blocks, BlockSeparator, i) <= |BatchPrompt(items)|
      && BatchPrompt(items)[Offset(blocks, BlockSeparator, i)..]
         == blocks[i] + (if i + 1 < |items| then BlockSeparator + Join(blocks[i + 1..], BlockSeparator) else "")
  {
    JoinLayout(Blocks(items), BlockSeparator, i);
  }

  /** Every block opens with a line break and the finding's marker, which is '⚪' for any
      severity other than critical, high, medium and low; the lines below follow in order. */
  lemma {:induction false} BatchBlockHeadline(f: AnalysisItem)
    ensures var b := BatchBlock(f);
      var m := Marker(f.finding.severity);
      && |b| > |m| && b[0] == '\n' && b[1..1 + |m|] == m
      && (!IsNamedSeverity(f.finding.severity) ==> b[1..1 + |m|] == "⚪")
  {
    MarkerTable(f.finding.severity);
    SecondLineStart(BlockLines(f), "\n", Marker(f.finding.severity), " " + f.tool + " - " + f.finding.title);
  }

  /** A join whose first part is empty starts with the separator and then the second part. */
  lemma {:induction false} SecondLineStart(lines: seq<string>, sep: string, m: string, rest: string)
    requires |lines| >= 2 && lines[0] == "" && lines[1] == m + rest
    ensures |Join(lines, sep)| >= |sep| + |m|
    ensures Join(lines, sep)[..|sep|] == sep && Join(lines, sep)[|sep|..|sep| + |m|] == m
  {
    var tail := Join(lines[1..], sep);
    assert Join(lines, sep) == "" + sep + tail;
    assert lines[1..][0] == lines[1];
    assert tail[..|m|] == m;
  }

  // ---------------------------------------------------------------------------
  // The verdict: the provider's parsed reply, or a constant fallback
  // ---------------------------------------------------------------------------

  datatype Verdict = Verdict(
    confidenceScore: int,
    recommendations: seq<string>,
    businessImpact: string,
    groupId: string)

  /** What the HTTP call plus `JSON.parse` gave for a prompt: a parsed reply, which is
      returned as is (nothing checks its ranges or fields), or any failure on the way. */
  datatype ProviderReply<J> = Parsed(json: J) | Failed

  datatype Analysis<J> = FromProvider(json: J) | Fallback(verdict: Verdict)

  const ManualReview := "Manual review recommended"

  const BatchFallback := Verdict(50, [ManualReview, "Review original scanner output"], "medium", "manual-review")

  const SingleFallback := Verdict(50, [ManualReview], "medium", "manual-review")

  /** `analyzeFindingsWithAI`: one analysis for the whole batch. */
  function AnalyzeFindings<J>(items: seq<AnalysisItem>, provider: string -> ProviderReply<J>): (r: Analysis<J>)
    ensures r.FromProvider? <==> provider(BatchPrompt(items)).Parsed?
    ensures r.FromProvider? ==> r.json == provider(BatchPrompt(items)).json
    ensures r.Fallback? ==> r.verdict == BatchFallback
  {
    match provider(BatchPrompt(items))
    case Parsed(j) => FromProvider(j)
    case Failed => Fallback(BatchFallback)
  }

  /** A failed batch gets the same verdict whatever the findings and however many there
      are; the single-finding fallback differs from it only in keeping just the first of
      its two recommendations. */
  lemma {:induction false} FailedBatchesAgree<J>(a: seq<AnalysisItem>, b: seq<AnalysisItem>,
                                                 provider: string -> ProviderReply<J>)
    requires provider(BatchPrompt(a)).Failed? && provider(BatchPrompt(b)).Failed?
    ensures AnalyzeFindings(a, provider) == AnalyzeFindings(b, provider)
    ensures SingleFallback == BatchFallback.(recommendations := BatchFallback.recommendations[..1])
    ensures AnalyzeFindings(a, provider).verdict.confidenceScore == 50
  {
  }

  // ---------------------------------------------------------------------------
  // analyzeSingleFinding: a template filled by a chain of first-occurrence replaces
  // ---------------------------------------------------------------------------

  /** `frags[0] + fills[0] + frags[1] + … + fills[n-1] + frags[n]`. */
  function Interleave(frags: seq<string>, fills: seq<string>): string
    requires |frags| == |fills| + 1
  {
    if fills == [] then frags[0] else frags[0] + fills[0] + Interleave(frags[1..], fills[1..])
  }

  /** `s.replace(pats[0], reps[0]).replace(pats[1], reps[1])…`, each on the text the
      previous one produced. */
  function ReplaceChain(s: string, pats: seq<string>, reps: seq<string>): string
    requires |pats| == |reps|
    decreases |pats|
  {
    if pats == [] then s else ReplaceChain(ReplaceFirst(s, pats[0], reps[0]), pats[1..], reps[1..])
  }

  const Placeholders := ["{tool_name}", "{severity}", "{title}", "{description}", "{file}", "{line_number}", "{confidence}"]

  // The opening sentences of the template, before its first placeholder.
  const Role := "You are a security " + "expert AI assistant. "
  const Task := "Analyze the following " + "vulnerability findings "
  const Request := "and provide structured " + "recommendations.\n\n"
  const Opening := Role + Task + Request + "TOOL: "

  /** The template after its last placeholder: the requested JSON shape and the rules. */
  const Closing :=
    "/100\n" +
    "\n" +
    "Provide the following JSON output:\n" +
    "\n" +
    "{\n" +
    "  \"confidence_score\": 85,\n" +
    "  \"recommendations\": [\n" +
    "    \"Specific fix recommendation 1\",\n" +
    "    \"Specific fix recommendation 2\"\n" +
    "  ],\n" +
    "  \"business_impact\": \"high|medium|low\",\n" +
    "  \"group_id\": \"Group this finding with similar issues\"\n" +
    "}\n" +
    "\n" +
    "Rules:\n" +
    "- confidence_score: 1-100 (how confident you are this is a real issue)\n" +
    "- business_impact: high, medium, or low\n" +
    "- group_id: Create a short group identifier (max 30 chars)\n" +
    "- recommendations: 2-4 concrete, actionable bullet points"

  /** The template's text around its seven placeholders. */
  const TemplateText := [
    Opening,
    "\nSEVERITY: ",
    "\nTITLE: ",
    "\nDESCRIPTION: ",
    "\nLOCATION: ",
    ":",
    "\nCONFIDENCE: ",
    Closing]

  function Template(): string
  {
    Interleave(TemplateText, Placeholders)
  }

  /** `location?.split(':')[0] || 'N/A'`: the file part of `path:line`, 'N/A' when it is empty. */
  function FileOf(location: string): (r: string)
    ensures location == "" || location[0] == ':' ==> r == NotAvailable
    ensures location != "" && location[0] != ':' ==>
      && r != "" && ':' !in r && |r| <= |location| && location[..|r|] == r
      && (|r| < |location| ==> location[|r|] == ':')
    ensures r != NotAvailable ==> ':' !in r && |r| <= |location| && location[..|r|] == r
                                  && (|r| < |location| ==> location[|r|] == ':')
    ensures '{' !in location ==> '{' !in r
  {
    var before := BeforeChar(location, ':');
    if before == "" then NotAvailable else before
  }

  /** The values substituted for the placeholders, in the order of the replace calls. */
  function SingleValues(f: AnalysisItem): (v: seq<string>)
    ensures |v| == |Placeholders|
  {
    [f.tool, f.finding.severity, f.finding.title, TextOrNa(f.finding.description),
     FileOf(f.finding.location), LineText(f.finding.lineNumber), IntToString(f.finding.confidence)]
  }

  /** The user message of the single-finding request. */
  function SinglePrompt(f: AnalysisItem): string
  {
    ReplaceChain(Template(), Placeholders, SingleValues(f))
  }

  /** Every placeholder is non-empty and starts with `c`, and `c` occurs in no value and in
      no template text before the last placeholder. */
  ghost predicate PlainParts(frags: seq<string>, pats: seq<string>, reps: seq<string>, c: char)
    requires |frags| == |pats| + 1 && |pats| == |reps|
  {
    forall k :: 0 <= k < |pats| ==> |pats[k]| > 0 && pats[k][0] == c && c !in frags[k] && c !in reps[k]
  }

  lemma {:induction false} PlainPartsTail(frags: seq<string>, pats: seq<string>, reps: seq<string>, c: char)
    requires |frags| == |pats| + 1 && |pats| == |reps| && pats != []
    requires PlainParts(frags, pats, reps, c)
    ensures PlainParts(frags[1..], pats[1..], reps[1..], c)
  {
    forall k | 0 <= k < |pats| - 1
      ensures |pats[1..][k]| > 0 && pats[1..][k][0] == c && c !in frags[1..][k] && c !in reps[1..][k]
    {
      assert pats[1..][k] == pats[k + 1] && frags[1..][k] == frags[k + 1] && reps[1..][k] == reps[k + 1];
    }
  }

  /** The first replace of the chain fills the first placeholder and keeps the rest. */
  lemma {:induction false} ChainStep(done: string, frags: seq<string>, pats: seq<string>, reps: seq<string>, c: char)
    requires |frags| == |pats| + 1 && |pats| == |reps| && pats != []
    requires c !in done && PlainParts(frags, pats, reps, c)
    ensures ReplaceFirst(done + Interleave(frags, pats), pats[0], reps[0])
         == (done + frags[0] + reps[0]) + Interleave(frags[1..], pats[1..])
    ensures c !in done + frags[0] + reps[0]
  {
    var tail := Interleave(frags[1..], pats[1..]);
    assert done + Interleave(frags, pats) == (done + frags[0]) + pats[0] + tail;
    ReplaceAfterPlainPrefix(done + frags[0], pats[0], tail, reps[0]);
  }

  lemma {:induction false} InterleaveStep(done: string, frags: seq<string>, reps: seq<string>)
    requires |frags| == |reps| + 1 && reps != []
    ensures (done + frags[0] + reps[0]) + Interleave(frags[1..], reps[1..]) == done + Interleave(frags, reps)
  {
  }

  /** The replace chain fills a template's placeholders in order when every placeholder
      starts with a character that occurs neither in the text already filled in nor in the
      template text before the last placeholder nor in any value. */
  lemma {:induction false} ChainFillsInOrder(done: string, frags: seq<string>, pats: seq<string>, reps: seq<string>, c: char)
    requires |frags| == |pats| + 1 && |pats| == |reps|
    requires c !in done && PlainParts(frags, pats, reps, c)
    ensures ReplaceChain(done + Interleave(frags, pats), pats, reps) == done + Interleave(frags, reps)
    decreases |pats|
  {
    if pats != [] {
      ChainStep(done, frags, pats, reps, c);
      PlainPartsTail(frags, pats, reps, c);
      var done' := done + frags[0] + reps[0];
      ChainFillsInOrder(done', frags[1..], pats[1..], reps[1..], c);
      InterleaveStep(done, frags, reps);
    } else {
      assert done + Interleave(frags, pats) == done + frags[0];
    }
  }

  /** When no substituted value holds a '{', every placeholder of the template is replaced by
      its value and the template text around them is kept: the prompt reads the tool, the
      severity, the title, the description or 'N/A', the file part of the location or 'N/A',
      the line or 'N/A', and the confidence, in the template's places. */
  lemma {:induction false} SinglePromptFilled(f: AnalysisItem)
    requires '{' !in f.tool && '{' !in f.finding.severity && '{' !in f.finding.title
    requires '{' !in f.finding.description && '{' !in f.finding.location
    ensures SinglePrompt(f) == Interleave(TemplateText, SingleValues(f))
  {
    var v := SingleValues(f);
    ValuesPlain(f);
    TemplatePlain();
    assert PlainParts(TemplateText, Placeholders, v, '{');
    ChainFillsInOrder("", TemplateText, Placeholders, v, '{');
    assert "" + Template() == Template();
    assert "" + Interleave(TemplateText, v) == Interleave(TemplateText, v);
  }

  lemma {:induction false} ValuesPlain(f: AnalysisItem)
    requires '{' !in f.tool && '{' !in f.finding.severity && '{' !in f.finding.title
    requires '{' !in f.finding.description && '{' !in f.finding.location
    ensures forall k :: 0 <= k < |Placeholders| ==> '{' !in SingleValues(f)[k]
  {
    assert '{' !in TextOrNa(f.finding.description);
    var conf := IntToString(f.finding.confidence);
    assert '{' !in conf by {
      assert forall i :: 0 <= i < |conf| ==> conf[i] != '{';
    }
  }

  /** Every placeholder starts with '{', and no template text before the last one has a '{'. */
  lemma {:induction false} TemplatePlain()
    ensures forall k :: 0 <= k < |Placeholders| ==>
      |Placeholders[k]| > 0 && Placeholders[k][0] == '{' && '{' !in TemplateText[k]
  {
    FirstFragmentPlain();
  }

  lemma {:induction false} FirstFragmentPlain()
    ensures '{' !in Opening
  {
    RolePlain();
    TaskPlain();
    RequestPlain();
  }

  lemma {:induction false} RolePlain()
    ensures '{' !in Role
  {
  }

  lemma {:induction false} TaskPlain()
    ensures '{' !in Task
  {
  }

  lemma {:induction false} RequestPlain()
    ensures '{' !in Request
  {
  }

  /** `analyzeSingleFinding`: the provider's parsed reply, or the single-finding fallback. */
  function AnalyzeSingle<J>(f: AnalysisItem, provider: string -> ProviderReply<J>): (r: Analysis<J>)
    ensures r.FromProvider? <==> provider(SinglePrompt(f)).Parsed?
    ensures r.FromProvider? ==> r.json == provider(SinglePrompt(f)).json
    ensures r.Fallback? ==> r.verdict == SingleFallback
  {
    match provider(SinglePrompt(f))
    case Parsed(j) => FromProvider(j)
    case Failed => Fallback(SingleFallback)
  }
}
