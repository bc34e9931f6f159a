/** `parse_feature_file`: the line-oriented Gherkin parser, as a recursive specification over the
    remaining lines and as the index-driven loops of the script proved against it. */
module FeatureParser {
  import opened Text
  import opened Gherkin

  // ------------------------------------------------------------------ specification

  /** Number of leading blank lines. */
  function BlankRun(lines: seq<string>): (n: nat)
    ensures n <= |lines|
  {
    if lines != [] && Strip(lines[0]) == "" then 1 + BlankRun(lines[1..]) else 0
  }

  /** Number of leading table rows. */
  function RowRun(lines: seq<string>): (n: nat)
    ensures n <= |lines|
  {
    if lines != [] && IsTableRow(Strip(lines[0])) then 1 + RowRun(lines[1..]) else 0
  }

  function RStripAll(lines: seq<string>): (r: seq<string>)
    ensures |r| == |lines|
    ensures forall i | 0 <= i < |r| :: r[i] == RStrip(lines[i])
  {
    if lines == [] then [] else [RStrip(lines[0])] + RStripAll(lines[1..])
  }

  /** The Examples block whose header is the first line, and what follows it. */
  function TakeExamples(lines: seq<string>): (r: (ExamplesBlock, seq<string>))
    requires lines != []
    ensures |r.1| < |lines|
  {
    var table := lines[1 + BlankRun(lines[1..])..];
    var n := RowRun(table);
    (ExamplesBlock(RStrip(lines[0]), RStripAll(table[..n])), table[n..])
  }

  /** The step on the first line with the table directly under it, and what follows. */
  function TakeStep(lines: seq<string>): (r: (Step, seq<string>))
    requires lines != [] && StepHead(Strip(lines[0])).Some?
    ensures |r.1| < |lines|
  {
    var head := StepHead(Strip(lines[0])).value;
    var n := RowRun(lines[1..]);
    (Step(head.0, head.1, RStripAll(lines[1..][..n])), lines[1..][n..])
  }

  /** A scenario body together with the lines left after it. */
  datatype Body = Body(steps: seq<Step>, comments: seq<string>, examples: seq<ExamplesBlock>, rest: seq<string>)

  function ParseBody(lines: seq<string>): (b: Body)
    ensures |b.rest| <= |lines|
    decreases |lines|
  {
    if lines == [] then Body([], [], [], [])
    else
      var t := Strip(lines[0]);
      if EndsScenario(t) then Body([], [], [], lines)
      else if IsExamples(t) then
        var (block, rest) := TakeExamples(lines);
        var b := ParseBody(rest);
        b.(examples := [block] + b.examples)
      else if StepHead(t).Some? then
        var (step, rest) := TakeStep(lines);
        var b := ParseBody(rest);
        b.(steps := [step] + b.steps)
      else if IsComment(t) then
        var b := ParseBody(lines[1..]);
        b.(comments := [RStrip(lines[0])] + b.comments)
      else ParseBody(lines[1..])
  }

  /** The contextgit comment and tags in front of a scenario. */
  datatype Lead = Lead(contextgit: Option<ContextGit>, tags: seq<string>, rest: seq<string>)

  function ParseLead(lines: seq<string>, contextgit: Option<ContextGit>, tags: seq<string>): (p: Lead)
    ensures |p.rest| <= |lines|
    decreases |lines|
  {
    if lines == [] then Lead(contextgit, tags, [])
    else
      var t := Strip(lines[0]);
      if ParseContextGit(t).Some? then ParseLead(lines[1..], ParseContextGit(t), tags)
      else if IsTagLine(t) then ParseLead(lines[1..], contextgit, tags + FindTags(t))
      else Lead(contextgit, tags, lines)
  }

  predicate IsFiller(t: string) {
    t == "" || (IsComment(t) && ParseContextGit(t).None?)
  }

  function ParseScenarios(lines: seq<string>): seq<Scenario>
    decreases |lines|
  {
    if lines == [] then []
    else if IsFiller(Strip(lines[0])) then ParseScenarios(lines[1..])
    else
      var lead := ParseLead(lines, None, []);
      if lead.rest == [] then []
      else
        match ScenarioHead(Strip(lead.rest[0]))
        case None => ParseScenarios(lead.rest[1..])
        case Some(head) =>
          var b := ParseBody(lead.rest[1..]);
          [Scenario(lead.contextgit, lead.tags, head.0, head.1, b.steps, b.examples, b.comments)]
          + ParseScenarios(b.rest)
  }

  /** Everything in front of the `Feature:` line. */
  datatype Preamble = Preamble(contextgit: Option<ContextGit>, tags: seq<string>, comments: seq<string>, rest: seq<string>)

  function ParsePreamble(lines: seq<string>, acc: Preamble): (p: Preamble)
    ensures |p.rest| <= |lines|
    decreases |lines|
  {
    if lines == [] then acc.(rest := [])
    else
      var t := Strip(lines[0]);
      if ParseContextGit(t).Some? then ParsePreamble(lines[1..], acc.(contextgit := ParseContextGit(t)))
      else if IsTagLine(t) then ParsePreamble(lines[1..], acc.(tags := acc.tags + FindTags(t)))
      else if IsFeature(t) then acc.(rest := lines)
      else if IsComment(t) || t == "" then ParsePreamble(lines[1..], acc.(comments := acc.comments + [lines[0]]))
      else ParsePreamble(lines[1..], acc)
  }

  const NO_PREAMBLE := Preamble(None, [], [], [])

  function DescriptionRun(lines: seq<string>): (n: nat)
    ensures n <= |lines|
  {
    if lines != [] && !EndsDescription(Strip(lines[0])) then 1 + DescriptionRun(lines[1..]) else 0
  }

  function BackgroundBodyRun(lines: seq<string>): (n: nat)
    ensures n <= |lines|
  {
    if lines != [] && !EndsScenario(Strip(lines[0])) then 1 + BackgroundBodyRun(lines[1..]) else 0
  }

  function BackgroundRun(lines: seq<string>): (n: nat)
    ensures n <= |lines|
  {
    if lines != [] && IsBackground(Strip(lines[0])) then 1 + BackgroundBodyRun(lines[1..]) else 0
  }

  function ParseFeature(lines: seq<string>): Feature {
    var p := ParsePreamble(lines, NO_PREAMBLE);
    var featureLine := if p.rest == [] then "" else Strip(p.rest[0]);
    var afterFeature := if p.rest == [] then [] else p.rest[1..];
    var d := DescriptionRun(afterFeature);
    var afterDescription := afterFeature[d..];
    var b := BackgroundRun(afterDescription);
    Feature(p.contextgit, p.tags, featureLine, afterFeature[..d], afterDescription[..b],
            ParseScenarios(afterDescription[b..]), p.comments)
  }

  // ------------------------------------------------------------------ the script's loops

  /** Consume the table rows from `start` on. */
  method TakeRows(lines: seq<string>, start: nat) returns (rows: seq<string>, idx: nat)
    requires start <= |lines|
    ensures idx == start + RowRun(lines[start..]) <= |lines|
    ensures rows == RStripAll(lines[start..idx])
  {
    hide IsTableRow, Strip, RStrip, RStripAll;
    idx := start;
    rows := [];
    while idx < |lines| && IsTableRow(Strip(lines[idx]))
      invariant start <= idx <= |lines|
      invariant start + RowRun(lines[start..]) == idx + RowRun(lines[idx..])
      invariant |rows| == idx - start
      invariant forall k | 0 <= k < |rows| :: rows[k] == RStrip(lines[start + k])
    {
      assert lines[idx..][1..] == lines[idx + 1..];
      rows := rows + [RStrip(lines[idx])];
      idx := idx + 1;
    }
    assert rows == RStripAll(lines[start..idx]);
  }

  method SkipBlanks(lines: seq<string>, start: nat) returns (idx: nat)
    requires start <= |lines|
    ensures idx == start + BlankRun(lines[start..]) <= |lines|
  {
    hide Strip;
    idx := start;
    while idx < |lines| && Strip(lines[idx]) == ""
      invariant start <= idx <= |lines|
      invariant start + BlankRun(lines[start..]) == idx + BlankRun(lines[idx..])
    {
      assert lines[idx..][1..] == lines[idx + 1..];
      idx := idx + 1;
    }
  }

  method ReadExamples(lines: seq<string>, start: nat) returns (block: ExamplesBlock, idx: nat)
    requires start < |lines|
    ensures start < idx <= |lines|
    ensures (block, lines[idx..]) == TakeExamples(lines[start..])
  {
    hide RStrip, RStripAll, BlankRun, RowRun;
    var header := RStrip(lines[start]);
    var first := SkipBlanks(lines, start + 1);
    var rows;
    rows, idx := TakeRows(lines, first);
    block := ExamplesBlock(header, rows);
    assert lines[start..][1..] == lines[start + 1..];
    assert lines[start..][first - start..] == lines[first..];
    assert lines[first..][..idx - first] == lines[first..idx];
    assert lines[first..][idx - first..] == lines[idx..];
  }

  method ReadStep(lines: seq<string>, start: nat) returns (step: Step, idx: nat)
    requires start < |lines| && StepHead(Strip(lines[start])).Some?
    ensures start < idx <= |lines|
    ensures (step, lines[idx..]) == TakeStep(lines[start..])
  {
    hide Strip, StepHead, RStripAll, RowRun;
    var head := StepHead(Strip(lines[start])).value;
    var rows;
    rows, idx := TakeRows(lines, start + 1);
    step := Step(head.0, head.1, rows);
    assert lines[start..][1..] == lines[start + 1..];
    assert lines[start + 1..][..idx - start - 1] == lines[start + 1..idx];
    assert lines[start + 1..][idx - start - 1..] == lines[idx..];
  }

  /** The inner loop that collects steps, comments and Examples of one scenario. */
  method CollectBody(lines: seq<string>, start: nat)
    returns (steps: seq<Step>, comments: seq<string>, examples: seq<ExamplesBlock>, idx: nat)
    requires start <= |lines|
    ensures start <= idx <= |lines|
    ensures Body(steps, comments, examples, lines[idx..]) == ParseBody(lines[start..])
  {
    hide Strip, RStrip, EndsScenario, IsExamples, StepHead, IsComment, TakeExamples, TakeStep;
    idx := start;
    steps, comments, examples := [], [], [];
    ghost var whole := ParseBody(lines[start..]);
    while idx < |lines|
      invariant start <= idx <= |lines|
      invariant var b := ParseBody(lines[idx..]);
                && whole.steps == steps + b.steps && whole.comments == comments + b.comments
                && whole.examples == examples + b.examples && whole.rest == b.rest
      decreases |lines| - idx
    {
      var stripped := Strip(lines[idx]);
      if EndsScenario(stripped) {
        break;
      }
      if IsExamples(stripped) {
        var block;
        block, idx := ReadExamples(lines, idx);
        examples := examples + [block];
        continue;
      }
      if StepHead(stripped).Some? {
        var step;
        step, idx := ReadStep(lines, idx);
        steps := steps + [step];
        continue;
      }
      assert lines[idx..][1..] == lines[idx + 1..];
      if IsComment(stripped) {
        comments := comments + [RStrip(lines[idx])];
      }
      idx := idx + 1;
    }
  }

  /** The leading lines before `Feature:`. */
  method ReadPreamble(lines: seq<string>) returns (p: Preamble, idx: nat)
    ensures idx <= |lines|
    ensures p.rest == lines[idx..] && p == ParsePreamble(lines, NO_PREAMBLE)
  {
    hide Strip, ParseContextGit, IsTagLine, FindTags, IsFeature, IsComment;
    idx, p := 0, NO_PREAMBLE;
    assert lines[0..] == lines;
    while idx < |lines|
      invariant 0 <= idx <= |lines|
      invariant p.rest == []
      invariant ParsePreamble(lines, NO_PREAMBLE) == ParsePreamble(lines[idx..], p)
    {
      assert lines[idx..][1..] == lines[idx + 1..];
      var stripped := Strip(lines[idx]);
      var cg := ParseContextGit(stripped);
      if cg.Some? {
        p := p.(contextgit := cg);
      } else if IsTagLine(stripped) {
        p := p.(tags := p.tags + FindTags(stripped));
      } else if IsFeature(stripped) {
        break;
      } else if IsComment(stripped) || stripped == "" {
        p := p.(comments := p.comments + [lines[idx]]);
      }
      idx := idx + 1;
    }
    p := p.(rest := lines[idx..]);
  }

  /** The description lines under the feature line. */
  method ReadDescription(lines: seq<string>, start: nat) returns (description: seq<string>, idx: nat)
    requires start <= |lines|
    ensures idx == start + DescriptionRun(lines[start..]) <= |lines|
    ensures description == lines[start..idx]
  {
    hide Strip, EndsDescription;
    idx, description := start, [];
    while idx < |lines| && !EndsDescription(Strip(lines[idx]))
      invariant start <= idx <= |lines|
      invariant start + DescriptionRun(lines[start..]) == idx + DescriptionRun(lines[idx..])
      invariant description == lines[start..idx]
    {
      assert lines[idx..][1..] == lines[idx + 1..];
      description := description + [lines[idx]];
      idx := idx + 1;
    }
  }

  /** The raw Background block, if there is one. */
  method ReadBackground(lines: seq<string>, start: nat) returns (background: seq<string>, idx: nat)
    requires start <= |lines|
    ensures idx == start + BackgroundRun(lines[start..]) <= |lines|
    ensures background == lines[start..idx]
  {
    hide Strip, EndsScenario, IsBackground;
    idx, background := start, [];
    if idx < |lines| && IsBackground(Strip(lines[idx])) {
      assert lines[idx..][1..] == lines[idx + 1..];
      background := background + [lines[idx]];
      idx := idx + 1;
      while idx < |lines| && !EndsScenario(Strip(lines[idx]))
        invariant start < idx <= |lines|
        invariant start + BackgroundRun(lines[start..]) == idx + BackgroundBodyRun(lines[idx..])
        invariant background == lines[start..idx]
      {
        assert lines[idx..][1..] == lines[idx + 1..];
        background := background + [lines[idx]];
        idx := idx + 1;
      }
    }
  }

  /** The contextgit comment and the tags in front of a scenario. */
  method ReadLead(lines: seq<string>, start: nat)
    returns (contextgit: Option<ContextGit>, tags: seq<string>, idx: nat)
    requires start <= |lines|
    ensures start <= idx <= |lines|
    ensures Lead(contextgit, tags, lines[idx..]) == ParseLead(lines[start..], None, [])
  {
    hide Strip, ParseContextGit, IsTagLine, FindTags;
    idx, contextgit, tags := start, None, [];
    while idx < |lines|
      invariant start <= idx <= |lines|
      invariant ParseLead(lines[start..], None, []) == ParseLead(lines[idx..], contextgit, tags)
    {
      var stripped := Strip(lines[idx]);
      assert lines[idx..][1..] == lines[idx + 1..];
      var cg := ParseContextGit(stripped);
      if cg.Some? {
        contextgit := cg;
      } else if IsTagLine(stripped) {
        tags := tags + FindTags(stripped);
      } else {
        break;
      }
      idx := idx + 1;
    }
  }

  /** The outer loop over scenarios. */
  method ReadScenarios(lines: seq<string>, start: nat) returns (scenarios: seq<Scenario>)
    requires start <= |lines|
    ensures scenarios == ParseScenarios(lines[start..])
  {
    hide Strip, IsFiller, ScenarioHead, ParseLead, ParseBody;
    var idx := start;
    scenarios := [];
    while idx < |lines|
      invariant start <= idx <= |lines|
      invariant ParseScenarios(lines[start..]) == scenarios + ParseScenarios(lines[idx..])
      decreases |lines| - idx
    {
      ghost var here := idx;
      assert lines[here..][1..] == lines[here + 1..];
      if IsFiller(Strip(lines[idx])) {
        idx := idx + 1;
        continue;
      }
      var contextgit, tags;
      contextgit, tags, idx := ReadLead(lines, idx);
      if idx >= |lines| {
        break;
      }
      assert lines[idx..][1..] == lines[idx + 1..];
      var head := ScenarioHead(Strip(lines[idx]));
      if head.None? {
        idx := idx + 1;
        continue;
      }
      var steps, comments, examples;
      steps, comments, examples, idx := CollectBody(lines, idx + 1);
      scenarios := scenarios + [Scenario(contextgit, tags, head.value.0, head.value.1, steps, examples, comments)];
    }
  }

  /** `parse_feature_file` on the lines of a file. */
  method ParseFeatureFile(lines: seq<string>) returns (feature: Feature)
    ensures feature == ParseFeature(lines)
  {
    hide Strip, ParsePreamble, DescriptionRun, BackgroundRun, ParseScenarios;
    var p, idx := ReadPreamble(lines);
    var featureLine := "";
    if idx < |lines| {
      featureLine := Strip(lines[idx]);
      assert lines[idx..][1..] == lines[idx + 1..];
      idx := idx + 1;
    }
    ghost var afterFeature := lines[idx..];
    ghost var d0 := idx;
    var description, background;
    description, idx := ReadDescription(lines, idx);
    assert afterFeature[..idx - d0] == description && afterFeature[idx - d0..] == lines[idx..];
    ghost var b0 := idx;
    background, idx := ReadBackground(lines, idx);
    assert lines[b0..][..idx - b0] == background && lines[b0..][idx - b0..] == lines[idx..];
    var scenarios := ReadScenarios(lines, idx);
    feature := Feature(p.contextgit, p.tags, featureLine, description, background, scenarios, p.comments);
  }
}
