/** The parsed Gherkin entities and the recognisers that stand for the script's patterns.
    Every recogniser is applied to a line that has already been stripped. */
module Gherkin {
  import opened Text

  datatype ContextGit = ContextGit(id: string, kind: string, upstream: seq<string>)

  datatype ExamplesBlock = ExamplesBlock(headerLine: string, rows: seq<string>)

  datatype Step = Step(keyword: string, text: string, tableRows: seq<string>)

  datatype Scenario = Scenario(
    contextgit: Option<ContextGit>,
    tags: seq<string>,
    keyword: string,
    name: string,
    steps: seq<Step>,
    examples: seq<ExamplesBlock>,
    commentLines: seq<string>)

  datatype Feature = Feature(
    contextgit: Option<ContextGit>,
    featureTags: seq<string>,
    featureLine: string,
    descriptionLines: seq<string>,
    backgroundLines: seq<string>,
    scenarios: seq<Scenario>,
    preambleComments: seq<string>)

  const OUTLINE := "Scenario Outline"
  const SCENARIO := "Scenario"

  // ------------------------------------------------------------------ text helpers

  /** The maximal leading run of non-space characters: a greedy `\S*`. */
  function Token(s: string): (r: string)
    ensures |r| <= |s|
  {
    if s != "" && !IsSpace(s[0]) then [s[0]] + Token(s[1..]) else ""
  }

  function SplitOn(s: string, sep: char): (parts: seq<string>)
    ensures |parts| >= 1
  {
    if s == "" then [""]
    else if s[0] == sep then [""] + SplitOn(s[1..], sep)
    else
      var rest := SplitOn(s[1..], sep);
      [[s[0]] + rest[0]] + rest[1..]
  }

  function Join(sep: string, parts: seq<string>): string {
    if parts == [] then ""
    else if |parts| == 1 then parts[0]
    else parts[0] + sep + Join(sep, parts[1..])
  }

  function StripAll(parts: seq<string>): (r: seq<string>)
    ensures |r| == |parts|
    ensures forall i | 0 <= i < |r| :: r[i] == Strip(parts[i])
  {
    if parts == [] then [] else [Strip(parts[0])] + StripAll(parts[1..])
  }

  function DropEmpty(parts: seq<string>): seq<string> {
    if parts == [] then []
    else (if parts[0] == "" then [] else [parts[0]]) + DropEmpty(parts[1..])
  }

  // ------------------------------------------------------------------ table rows

  function LStripBars(s: string): (r: string)
    ensures |r| <= |s|
  {
    if s != "" && s[0] == '|' then LStripBars(s[1..]) else s
  }

  function RStripBars(s: string): (r: string)
    ensures |r| <= |s|
  {
    if s != "" && s[|s| - 1] == '|' then RStripBars(s[..|s| - 1]) else s
  }

  /** The cells of a row: `row.strip().strip("|").split("|")`, each stripped. */
  function Cells(row: string): (cells: seq<string>)
    ensures |cells| >= 1
  {
    StripAll(SplitOn(RStripBars(LStripBars(Strip(row))), '|'))
  }

  // ------------------------------------------------------------------ contextgit comments

  /** Whether `#\s*@contextgit\s+id=\S+` matches at the start of `u`; the rest of the pattern is optional. */
  predicate ContextGitHead(u: string) {
    && u != "" && u[0] == '#'
    && var a := LStrip(u[1..]);
    && "@contextgit" <= a
    && var b := a[11..];
    && b != "" && IsSpace(b[0])
    && var c := LStrip(b);
    && "id=" <= c && |c| > 3 && !IsSpace(c[3])
  }

  function ContextGitAt(u: string): ContextGit
    requires ContextGitHead(u)
  {
    var c := LStrip(LStrip(u[1..])[11..]);
    var id := Token(c[3..]);
    var afterId := c[3 + |id|..];
    var e := LStrip(afterId);
    var typed := |e| < |afterId| && "type=" <= e && |e| > 5 && !IsSpace(e[5]);
    var kind := if typed then Token(e[5..]) else "test";
    var afterKind := if typed then e[5 + |kind|..] else afterId;
    var f := LStrip(afterKind);
    var listed := |f| < |afterKind| && "upstream=[" <= f && ']' in f[10..];
    ContextGit(id, kind, if listed then DropEmpty(StripAll(SplitOn(SplitOn(f[10..], ']')[0], ','))) else [])
  }

  /** `_CONTEXTGIT_RE.search`: the leftmost match anywhere in the line. */
  function ParseContextGit(t: string): Option<ContextGit> {
    if t == "" then None
    else if ContextGitHead(t) then Some(ContextGitAt(t))
    else ParseContextGit(t[1..])
  }

  // ------------------------------------------------------------------ tags

  /** The character class `[\w\-.]`. */
  predicate IsTagChar(c: char) {
    IsWord(c) || c == '-' || c == '.'
  }

  function TagRun(s: string): (n: nat)
    ensures n <= |s|
    ensures forall i | 0 <= i < n :: IsTagChar(s[i])
    ensures n < |s| ==> !IsTagChar(s[n])
  {
    if s != "" && IsTagChar(s[0]) then 1 + TagRun(s[1..]) else 0
  }

  function FindTags(s: string): seq<string>
    decreases |s|
  {
    if s == "" then []
    else if s[0] == '@' && TagRun(s[1..]) > 0 then
      var n := 1 + TagRun(s[1..]);
      [s[..n]] + FindTags(s[n..])
    else FindTags(s[1..])
  }

  function RemoveTags(s: string): string
    decreases |s|
  {
    if s == "" then ""
    else if s[0] == '@' && TagRun(s[1..]) > 0 then RemoveTags(s[1 + TagRun(s[1..])..])
    else [s[0]] + RemoveTags(s[1..])
  }

  predicate IsTagLine(t: string) {
    t != "" && t[0] != '#' && Strip(RemoveTags(t)) == "" && FindTags(t) != []
  }

  predicate TagSafe(tag: string) {
    |tag| >= 2 && tag[0] == '@' && forall i | 1 <= i < |tag| :: IsTagChar(tag[i])
  }

  // ------------------------------------------------------------------ line heads

  predicate IsFeature(t: string) {
    "Feature:" <= t && LStrip(t[8..]) != ""
  }

  predicate IsBackground(t: string) {
    t == "Background:"
  }

  function ScenarioHead(t: string): Option<(string, string)> {
    if "Scenario Outline:" <= t && LStrip(t[17..]) != "" then Some((OUTLINE, LStrip(t[17..])))
    else if "Scenario:" <= t && LStrip(t[9..]) != "" then Some((SCENARIO, LStrip(t[9..])))
    else None
  }

  predicate IsKeyword(keyword: string, t: string) {
    |keyword| < |t| && keyword <= t && IsSpace(t[|keyword|]) && LStrip(t[|keyword|..]) != ""
  }

  function StepHead(t: string): Option<(string, string)> {
    if IsKeyword("Given", t) then Some(("Given", LStrip(t[5..])))
    else if IsKeyword("When", t) then Some(("When", LStrip(t[4..])))
    else if IsKeyword("Then", t) then Some(("Then", LStrip(t[4..])))
    else if IsKeyword("And", t) then Some(("And", LStrip(t[3..])))
    else if IsKeyword("But", t) then Some(("But", LStrip(t[3..])))
    else None
  }

  predicate IsExamples(t: string) {
    "Examples:" <= t
  }

  predicate IsTableRow(t: string) {
    |t| >= 2 && t[0] == '|' && t[|t| - 1] == '|'
  }

  predicate IsComment(t: string) {
    t != "" && t[0] == '#'
  }

  predicate IsSectionRule(t: string) {
    "# =====" <= t
  }

  /** What ends a scenario body. */
  predicate EndsScenario(t: string) {
    ScenarioHead(t).Some? || ParseContextGit(t).Some? || IsTagLine(t) || IsSectionRule(t)
  }

  /** What ends the description under the `Feature:` line. */
  predicate EndsDescription(t: string) {
    IsBackground(t) || ScenarioHead(t).Some? || ParseContextGit(t).Some? || IsTagLine(t)
  }
}
