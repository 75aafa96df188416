/** The webhook request body and the JavaScript `||` defaults the handler applies to it
    (src/routes/webhooks.js). A default fires on every falsy value: a missing field, null,
    the empty string and the number 0 alike. */
module Payloads {
  import opened Text
  import opened Records

  /** One element of the body's `findings` array as JSON gives it; a missing or null
      field is None. The element's own `tool` is carried but never stored. */
  datatype RawFinding = RawFinding(
    tool: Option<string>,
    severity: Option<string>,
    title: Option<string>,
    description: Option<string>,
    location: Option<string>,
    lineNumber: Option<int>,
    confidence: Option<int>)

  /** What `payload.findings` holds: nothing (or another falsy value), some non-array
      value, or an array. */
  datatype FindingsField = Missing | NotAnArray | Items(items: seq<RawFinding>)

  datatype Payload = Payload(
    scanId: Option<string>,
    projectName: Option<string>,
    githubRepo: Option<string>,
    findings: FindingsField)

  predicate TruthyText(v: Option<string>) { v.Some? && v.value != "" }

  predicate TruthyNumber(v: Option<int>) { v.Some? && v.value != 0 }

  /** `v || d` on a string field. */
  function TextOr(v: Option<string>, d: string): string
  {
    if TruthyText(v) then v.value else d
  }

  const DefaultSeverity := Medium
  const DefaultTitle := "Unknown"
  const DefaultConfidence := 70

  /** The shape every normalised finding has: severity, title and confidence are truthy, and
      a line number is either NULL or not 0. Description and location may be empty. */
  predicate Normalized(f: Finding)
  {
    f.severity != "" && f.title != "" && f.confidence != 0 &&
    (f.lineNumber.Some? ==> f.lineNumber.value != 0)
  }

  /** The per-field defaults: a truthy field passes through unchanged, a falsy one becomes
      'medium', 'Unknown', '', '', NULL or 70. */
  function NormalizeFinding(raw: RawFinding): (f: Finding)
    ensures Normalized(f)
    ensures TruthyText(raw.severity) ==> f.severity == raw.severity.value
    ensures !TruthyText(raw.severity) ==> f.severity == DefaultSeverity
    ensures TruthyText(raw.title) ==> f.title == raw.title.value
    ensures !TruthyText(raw.title) ==> f.title == DefaultTitle
    ensures f.description == (if raw.description.Some? then raw.description.value else "")
    ensures f.location == (if raw.location.Some? then raw.location.value else "")
    ensures f.lineNumber == (if TruthyNumber(raw.lineNumber) then raw.lineNumber else None)
    ensures f.confidence == (if TruthyNumber(raw.confidence) then raw.confidence.value else DefaultConfidence)
  {
    Finding(
      TextOr(raw.severity, DefaultSeverity),
      TextOr(raw.title, DefaultTitle),
      TextOr(raw.description, ""),
      TextOr(raw.location, ""),
      if TruthyNumber(raw.lineNumber) then raw.lineNumber else None,
      if TruthyNumber(raw.confidence) then raw.confidence.value else DefaultConfidence)
  }

  /** A stored finding written back as a payload element (as a scanner re-sending it would). */
  function AsRaw(tool: string, f: Finding): RawFinding
  {
    RawFinding(Some(tool), Some(f.severity), Some(f.title), Some(f.description),
               Some(f.location), f.lineNumber, Some(f.confidence))
  }

  /** Normalisation changes nothing that is already normalised: a stored finding sent again
      is stored with the same fields. */
  lemma {:induction false} NormalizeFixesNormalized(tool: string, f: Finding)
    requires Normalized(f)
    ensures NormalizeFinding(AsRaw(tool, f)) == f
  {
  }

  /** Normalisation is idempotent, and the element's own `tool` plays no part in it. */
  lemma {:induction false} NormalizeIdempotent(raw: RawFinding, tool: string)
    ensures NormalizeFinding(AsRaw(tool, NormalizeFinding(raw))) == NormalizeFinding(raw)
    ensures NormalizeFinding(raw.(tool := Some(tool))) == NormalizeFinding(raw)
  {
    NormalizeFixesNormalized(tool, NormalizeFinding(raw));
  }

  // ---------------------------------------------------------------------------
  // Payload-level defaults
  // ---------------------------------------------------------------------------

  const ScanIdPrefix := "scan-"

  /** `payload.scan_id || 'scan-' + Date.now()`. */
  function ScanIdFor(p: Payload, millis: nat): (id: string)
    ensures TruthyText(p.scanId) ==> id == p.scanId.value
    ensures !TruthyText(p.scanId) ==>
      |id| > |ScanIdPrefix| && id[..|ScanIdPrefix|] == ScanIdPrefix &&
      AllDigits(id[|ScanIdPrefix|..]) && ParseNat(id[|ScanIdPrefix|..]) == millis
    ensures id != ""
  {
    if TruthyText(p.scanId) then p.scanId.value
    else
      var id := ScanIdPrefix + NatToString(millis);
      assert id[|ScanIdPrefix|..] == NatToString(millis);
      ParseNatToString(millis);
      id
  }

  /** `payload.github_repo || 'default'`: the key projects are looked up and created by. */
  function RepoKey(p: Payload): string
  {
    TextOr(p.githubRepo, "default")
  }

  /** `payload.project_name || 'Unnamed Project'`. */
  function ProjectNameFor(p: Payload): string
  {
    TextOr(p.projectName, "Unnamed Project")
  }
}
