/** Print, then parse: what the printer writes for well-formed scenarios is read back as the same
    scenarios in normal form, and everything the parser ever returns is well formed. */
module RoundTrip {
  import opened Text
  import opened Gherkin
  import opened GherkinFacts
  import opened FeatureParser
  import opened FeatureRender

  // ------------------------------------------------------------------ normal form

  function NormStep(s: Step): Step {
    Step(s.keyword, RStrip(s.text), IndentAll(STEP_PAD, s.tableRows))
  }

  function NormSteps(steps: seq<Step>): (r: seq<Step>)
    ensures |r| == |steps|
    ensures forall i | 0 <= i < |r| :: r[i] == NormStep(steps[i])
  {
    if steps == [] then [] else [NormStep(steps[0])] + NormSteps(steps[1..])
  }

  function NormBlock(e: ExamplesBlock): ExamplesBlock {
    ExamplesBlock(STEP_PAD + Strip(e.headerLine), IndentAll(ROW_PAD, e.rows))
  }

  function NormBlocks(blocks: seq<ExamplesBlock>): (r: seq<ExamplesBlock>)
    ensures |r| == |blocks|
    ensures forall i | 0 <= i < |r| :: r[i] == NormBlock(blocks[i])
  {
    if blocks == [] then [] else [NormBlock(blocks[0])] + NormBlocks(blocks[1..])
  }

  /** The scenario as it comes back from a print: contextgit dropped, rows and comments re-indented,
      trailing white space of the name and the step texts gone. */
  function Norm(s: Scenario): Scenario {
    Scenario(None, s.tags, s.keyword, RStrip(s.name), NormSteps(s.steps), NormBlocks(s.examples),
             IndentAll(STEP_PAD, s.commentLines))
  }

  function NormAll(scenarios: seq<Scenario>): (r: seq<Scenario>)
    ensures |r| == |scenarios|
    ensures forall i | 0 <= i < |r| :: r[i] == Norm(scenarios[i])
  {
    if scenarios == [] then [] else [Norm(scenarios[0])] + NormAll(scenarios[1..])
  }

  // ------------------------------------------------------------------ well-formedness

  predicate RowsOk(rows: seq<string>) {
    forall i | 0 <= i < |rows| :: IsTableRow(Strip(rows[i]))
  }

  predicate StepOk(s: Step) {
    && StepKeyword(s.keyword) && s.text != "" && !IsSpace(s.text[0])
    && ParseContextGit(s.keyword + " " + RStrip(s.text)).None?
    && RowsOk(s.tableRows)
  }

  predicate CommentOk(line: string) {
    var t := Strip(line);
    IsComment(t) && !IsSectionRule(t) && ParseContextGit(t).None?
  }

  predicate BlockOk(e: ExamplesBlock) {
    IsExamples(Strip(e.headerLine)) && ParseContextGit(Strip(e.headerLine)).None? && RowsOk(e.rows)
  }

  predicate NameOk(keyword: string, name: string) {
    && (keyword == OUTLINE || keyword == SCENARIO) && name != "" && !IsSpace(name[0])
    && ParseContextGit(keyword + ": " + RStrip(name)).None?
  }

  predicate StepsOk(steps: seq<Step>) {
    forall i | 0 <= i < |steps| :: StepOk(steps[i])
  }

  predicate CommentsOk(lines: seq<string>) {
    forall i | 0 <= i < |lines| :: CommentOk(lines[i])
  }

  predicate BlocksOk(blocks: seq<ExamplesBlock>) {
    forall i | 0 <= i < |blocks| :: BlockOk(blocks[i])
  }

  ghost predicate ScenarioOk(s: Scenario) {
    AllTagSafe(s.tags) && NameOk(s.keyword, s.name)
    && StepsOk(s.steps) && CommentsOk(s.commentLines) && BlocksOk(s.examples)
  }

  ghost predicate ScenariosOk(scenarios: seq<Scenario>) {
    forall i | 0 <= i < |scenarios| :: ScenarioOk(scenarios[i])
  }

  // ------------------------------------------------------------------ table rows

  predicate StartsWithRow(lines: seq<string>) {
    lines != [] && IsTableRow(Strip(lines[0]))
  }

  lemma PrintedRow(pad: string, row: string)
    requires AllSpace(pad) && IsTableRow(Strip(row))
    ensures Strip(pad + Strip(row)) == Strip(row) && RStrip(pad + Strip(row)) == pad + Strip(row)
  {
    StripTrimmed(row);
    StripIndented(pad, Strip(row));
    RowApart(Strip(row));
  }

  lemma {:induction false} RowsReadBack(pad: string, rows: seq<string>, tail: seq<string>)
    requires AllSpace(pad) && RowsOk(rows) && !StartsWithRow(tail)
    ensures RowRun(IndentAll(pad, rows) + tail) == |rows|
    ensures RStripAll(IndentAll(pad, rows)) == IndentAll(pad, rows)
  {
    hide IsTableRow, Strip, RStrip, AllSpace;
    if rows == [] {
      assert IndentAll(pad, rows) + tail == tail;
    } else {
      PrintedRow(pad, rows[0]);
      assert forall i | 0 <= i < |rows[1..]| :: rows[1..][i] == rows[i + 1];
      RowsReadBack(pad, rows[1..], tail);
      assert (IndentAll(pad, rows) + tail)[1..] == IndentAll(pad, rows[1..]) + tail;
      assert IndentAll(pad, rows)[1..] == IndentAll(pad, rows[1..]);
    }
  }

  // ------------------------------------------------------------------ steps, comments, Examples

  lemma TrimmedRStrip(text: string)
    requires text != "" && !IsSpace(text[0])
    ensures RStrip(text) != "" && Trimmed(RStrip(text)) && RStrip(text)[0] == text[0]
  {
    var pad := RStripParts(text);
    assert text == RStrip(text) + pad;
  }

  lemma Pads()
    ensures AllSpace(STEP_PAD) && AllSpace(ROW_PAD) && AllSpace("  ")
  {
  }

  lemma PrintedStepStrips(s: Step)
    requires s.text != "" && !IsSpace(s.text[0]) && StepKeyword(s.keyword)
    ensures Strip(STEP_PAD + s.keyword + " " + s.text) == s.keyword + " " + RStrip(s.text)
  {
    hide IsSpace, Strip, StepHead, ScenarioHead, IsTagLine, IsSectionRule, IsExamples, IsTableRow, RStrip;
    Pads();
    TrimmedRStrip(s.text);
    var pad := RStripParts(s.text);
    StepHeadReadsBack(s.keyword, RStrip(s.text));
    var core := s.keyword + " " + RStrip(s.text);
    assert s.keyword + " " + s.text == core + pad;
    assert STEP_PAD + s.keyword + " " + s.text == STEP_PAD + (s.keyword + " " + s.text);
    assert STEP_PAD + (core + pad) == STEP_PAD + core + pad;
    StripUnique(STEP_PAD, core, pad);
  }

  /** What a printed step line looks like to the recognisers. */
  lemma PrintedStep(s: Step)
    requires StepOk(s)
    ensures var t := Strip(STEP_PAD + s.keyword + " " + s.text);
            !EndsScenario(t) && !IsExamples(t) && !IsTableRow(t)
            && StepHead(t) == Some((s.keyword, RStrip(s.text)))
  {
    hide Strip, RStrip, ParseContextGit, IsTagLine, ScenarioHead, StepHead, IsSectionRule, IsExamples, IsTableRow;
    PrintedStepStrips(s);
    TrimmedRStrip(s.text);
    StepHeadReadsBack(s.keyword, RStrip(s.text));
  }

  lemma BodyAtStep(line: string, rows: seq<string>, tail: seq<string>, s: Step)
    requires StepOk(s) && line == STEP_PAD + s.keyword + " " + s.text
    requires rows == IndentAll(STEP_PAD, s.tableRows) && !StartsWithRow(tail)
    ensures var b := ParseBody(tail);
            ParseBody([line] + rows + tail) == b.(steps := [NormStep(s)] + b.steps)
  {
    hide EndsScenario, IsExamples, StepHead, IsTableRow, Strip, RStrip, IsSpace;
    var lines := [line] + rows + tail;
    Pads();
    PrintedStep(s);
    RowsReadBack(STEP_PAD, s.tableRows, tail);
    assert lines[1..] == rows + tail;
    assert lines[1..][..|rows|] == rows;
    assert lines[1..][|rows|..] == tail;
  }

  lemma StepReadsBack(s: Step, rest: seq<string>)
    requires StepOk(s) && !StartsWithRow(rest)
    ensures var b := ParseBody(rest);
            ParseBody(RenderSteps([s]) + rest) == b.(steps := [NormStep(s)] + b.steps)
    ensures !StartsWithRow(RenderSteps([s]) + rest)
  {
    hide StepOk, IsTableRow, Strip, NormStep, ParseBody, IndentAll, RenderSteps, StepHead, EndsScenario, IsExamples;
    OneStep(s);
    BodyAtStep(STEP_PAD + s.keyword + " " + s.text, IndentAll(STEP_PAD, s.tableRows), rest, s);
    PrintedStep(s);
  }

  lemma RenderStepsCons(steps: seq<Step>)
    requires steps != []
    ensures RenderSteps(steps) == RenderSteps([steps[0]]) + RenderSteps(steps[1..])
    ensures NormSteps(steps) == [NormStep(steps[0])] + NormSteps(steps[1..])
  {
    hide IndentAll, NormStep;
    assert [steps[0]][1..] == [];
  }

  lemma {:induction false} StepsReadBack(steps: seq<Step>, tail: seq<string>)
    requires StepsOk(steps) && !StartsWithRow(tail)
    ensures var b := ParseBody(tail);
            ParseBody(RenderSteps(steps) + tail) == b.(steps := NormSteps(steps) + b.steps)
    ensures !StartsWithRow(RenderSteps(steps) + tail)
  {
    hide StepOk, StartsWithRow, NormStep, NormSteps, ParseBody, RenderSteps;
    var b := ParseBody(tail);
    if steps == [] {
      NoSteps();
      assert RenderSteps(steps) + tail == tail;
      assert NormSteps(steps) + b.steps == b.steps;
    } else {
      StepsReadBack(steps[1..], tail);
      var rest := RenderSteps(steps[1..]) + tail;
      StepReadsBack(steps[0], rest);
      RenderStepsCons(steps);
      assert RenderSteps(steps) + tail == RenderSteps([steps[0]]) + rest;
      assert [NormStep(steps[0])] + (NormSteps(steps[1..]) + b.steps) == NormSteps(steps) + b.steps;
    }
  }

  lemma PrintedComment(line: string)
    requires CommentOk(line)
    ensures var t := Strip(STEP_PAD + Strip(line));
            !EndsScenario(t) && !IsExamples(t) && StepHead(t).None? && IsComment(t) && !IsTableRow(t)
    ensures RStrip(STEP_PAD + Strip(line)) == STEP_PAD + Strip(line)
  {
    StripTrimmed(line);
    StripIndented(STEP_PAD, Strip(line));
    CommentApart(Strip(line));
  }

  lemma {:induction false} CommentsReadBack(lines: seq<string>, tail: seq<string>)
    requires CommentsOk(lines) && !StartsWithRow(tail)
    ensures var b := ParseBody(tail);
            ParseBody(IndentAll(STEP_PAD, lines) + tail) == b.(comments := IndentAll(STEP_PAD, lines) + b.comments)
    ensures !StartsWithRow(IndentAll(STEP_PAD, lines) + tail)
  {
    hide CommentOk, EndsScenario, IsExamples, StepHead, IsTableRow, IsComment, Strip, RStrip, TakeExamples, TakeStep;
    var printed := IndentAll(STEP_PAD, lines);
    if lines == [] {
      assert printed + tail == tail;
      assert printed + ParseBody(tail).comments == ParseBody(tail).comments;
    } else {
      assert forall i | 0 <= i < |lines[1..]| :: lines[1..][i] == lines[i + 1];
      CommentsReadBack(lines[1..], tail);
      PrintedComment(lines[0]);
      assert (printed + tail)[1..] == IndentAll(STEP_PAD, lines[1..]) + tail;
      var b := ParseBody(tail);
      assert [printed[0]] + (IndentAll(STEP_PAD, lines[1..]) + b.comments) == printed + b.comments;
    }
  }

  lemma PrintedHeader(e: ExamplesBlock)
    requires BlockOk(e)
    ensures var line := STEP_PAD + Strip(e.headerLine);
            Strip(line) == Strip(e.headerLine) && RStrip(line) == line
            && !EndsScenario(Strip(line)) && IsExamples(Strip(line))
  {
    hide ScenarioHead, ParseContextGit, IsTagLine, IsSectionRule, Strip, IsExamples, IsTableRow;
    Pads();
    StripTrimmed(e.headerLine);
    StripIndented(STEP_PAD, Strip(e.headerLine));
    ExamplesHeadApart(Strip(e.headerLine));
  }

  lemma BodySkipsBlank(tail: seq<string>)
    ensures ParseBody([""] + tail) == ParseBody(tail)
  {
    BlankApart();
    assert ([""] + tail)[1..] == tail;
  }

  lemma {:induction false} BodySkipsBlanks(tail: seq<string>)
    ensures ParseBody(tail[BlankRun(tail)..]) == ParseBody(tail)
  {
    hide EndsScenario, IsExamples, StepHead, IsComment, Strip;
    if tail != [] && Strip(tail[0]) == "" {
      assert tail[BlankRun(tail)..] == tail[1..][BlankRun(tail[1..])..];
      BodySkipsBlanks(tail[1..]);
      BlankLine();
    } else {
      assert tail[0..] == tail;
    }
  }

  lemma BlankLine()
    ensures !EndsScenario("") && !IsExamples("") && StepHead("").None? && !IsComment("") && !IsTableRow("")
    ensures Strip("") == ""
  {
    BlankApart();
  }

  /** No table row is next, even after skipping blank lines. */
  predicate RowFree(tail: seq<string>) {
    !StartsWithRow(tail[BlankRun(tail)..])
  }

  lemma RowFreeStart(tail: seq<string>)
    requires RowFree(tail)
    ensures !StartsWithRow(tail)
    ensures RowFree([""] + tail)
  {
    assert tail[0..] == tail;
    BlankLine();
    assert ([""] + tail)[1..] == tail;
    assert ([""] + tail)[1 + BlankRun(tail)..] == tail[BlankRun(tail)..];
  }

  lemma PrintedTable(rows: seq<string>, tail: seq<string>)
    requires RowsOk(rows) && RowFree(tail)
    ensures var after := IndentAll(ROW_PAD, rows) + tail;
            var table := after[BlankRun(after)..];
            && RowRun(table) == |rows|
            && RStripAll(table[..|rows|]) == IndentAll(ROW_PAD, rows)
            && ParseBody(table[|rows|..]) == ParseBody(tail)
  {
    hide IsTableRow, Strip, RStrip, IsSpace, ParseBody;
    Pads();
    RowFreeStart(tail);
    var printed := IndentAll(ROW_PAD, rows);
    var after := printed + tail;
    RowsReadBack(ROW_PAD, rows, tail);
    if rows == [] {
      assert after == tail;
      BodySkipsBlanks(tail);
      var table := tail[BlankRun(tail)..];
      assert table[..0] == [] && table[0..] == table;
    } else {
      PrintedRow(ROW_PAD, rows[0]);
      RowApart(Strip(rows[0]));
      assert after[0..] == after;
      assert after[..|rows|] == printed && after[|rows|..] == tail;
    }
  }

  lemma BodyAtExamples(line: string, rows: seq<string>, tail: seq<string>, e: ExamplesBlock)
    requires BlockOk(e) && line == STEP_PAD + Strip(e.headerLine)
    requires rows == IndentAll(ROW_PAD, e.rows) && RowFree(tail)
    ensures var b := ParseBody(tail);
            ParseBody([line] + rows + tail) == b.(examples := [NormBlock(e)] + b.examples)
  {
    hide EndsScenario, IsExamples, IsTableRow, Strip, RStrip, IsSpace;
    var lines := [line] + rows + tail;
    PrintedHeader(e);
    assert lines[1..] == rows + tail;
    PrintedTable(e.rows, tail);
  }

  lemma BlockReadsBack(e: ExamplesBlock, rest: seq<string>)
    requires BlockOk(e) && RowFree(rest)
    ensures var b := ParseBody(rest);
            ParseBody(RenderExamples([e]) + rest) == b.(examples := [NormBlock(e)] + b.examples)
    ensures RowFree(RenderExamples([e]) + rest)
  {
    hide BlockOk, Strip, NormBlock, ParseBody, IndentAll, RowFree;
    var line := STEP_PAD + Strip(e.headerLine);
    var rows := IndentAll(ROW_PAD, e.rows);
    var here := [line] + rows + rest;
    assert RenderExamples([e]) + rest == [""] + here;
    BodySkipsBlank(here);
    BodyAtExamples(line, rows, rest, e);
    HeaderRowFree(e, here);
    RowFreeStart(here);
  }

  lemma {:induction false} ExamplesReadBack(blocks: seq<ExamplesBlock>, tail: seq<string>)
    requires BlocksOk(blocks) && RowFree(tail)
    ensures var b := ParseBody(tail);
            ParseBody(RenderExamples(blocks) + tail) == b.(examples := NormBlocks(blocks) + b.examples)
    ensures RowFree(RenderExamples(blocks) + tail)
  {
    hide BlockOk, Strip, NormBlock, ParseBody, IndentAll, RowFree;
    if blocks == [] {
      assert RenderExamples(blocks) + tail == tail;
      assert NormBlocks(blocks) + ParseBody(tail).examples == ParseBody(tail).examples;
    } else {
      ExamplesReadBack(blocks[1..], tail);
      var rest := RenderExamples(blocks[1..]) + tail;
      BlockReadsBack(blocks[0], rest);
      assert RenderExamples(blocks) + tail == RenderExamples([blocks[0]]) + rest;
      var b := ParseBody(tail);
      assert [NormBlock(blocks[0])] + (NormBlocks(blocks[1..]) + b.examples) == NormBlocks(blocks) + b.examples;
    }
  }

  lemma HeaderRowFree(e: ExamplesBlock, lines: seq<string>)
    requires BlockOk(e) && lines != [] && lines[0] == STEP_PAD + Strip(e.headerLine)
    ensures RowFree(lines)
  {
    hide Strip, RStrip;
    PrintedHeader(e);
    ExamplesHeadApart(Strip(e.headerLine));
    assert lines[0..] == lines;
  }

  // ------------------------------------------------------------------ whole scenarios

  lemma PrintedScenarioLine(s: Scenario)
    requires NameOk(s.keyword, s.name)
    ensures var t := Strip(ScenarioLine(s));
            && ScenarioHead(t) == Some((s.keyword, RStrip(s.name)))
            && ParseContextGit(t).None? && !IsTagLine(t) && !IsFiller(t) && !IsTableRow(t) && t != ""
            && EndsScenario(t) && EndsDescription(t)
  {
    hide IsSpace, ScenarioHead, IsTagLine, IsTableRow;
    Pads();
    TrimmedRStrip(s.name);
    var pad := RStripParts(s.name);
    var core := s.keyword + ": " + RStrip(s.name);
    ScenarioHeadReadsBack(s.keyword, RStrip(s.name));
    assert ScenarioLine(s) == "  " + core + pad;
    StripUnique("  ", core, pad);
    NameNotRow(core);
  }

  lemma NameNotRow(t: string)
    requires ScenarioHead(t).Some?
    ensures !IsTableRow(t)
  {
    assert t[0] == 'S';
  }

  lemma PrintedTagLine(tags: seq<string>)
    requires AllTagSafe(tags) && tags != []
    ensures var t := Strip("  " + Join(" ", tags));
            && ParseContextGit(t).None? && IsTagLine(t) && FindTags(t) == tags && !IsFiller(t) && !IsTableRow(t)
            && t != "" && EndsScenario(t) && EndsDescription(t)
  {
    hide IsSpace, IsTagLine, FindTags;
    Pads();
    TagLineReadsBack(tags);
    StripIndented("  ", Join(" ", tags));
    JoinedTagsShape(tags);
  }

  /** The lead of a printed scenario: its tags, then the scenario line. */
  lemma LeadReadsBack(s: Scenario, after: seq<string>)
    requires AllTagSafe(s.tags) && NameOk(s.keyword, s.name)
    ensures var lines := TagLine(s.tags) + [ScenarioLine(s)] + after;
            && ParseLead(lines, None, []) == Lead(None, s.tags, [ScenarioLine(s)] + after)
            && !IsFiller(Strip(lines[0])) && EndsScenario(Strip(lines[0])) && EndsDescription(Strip(lines[0]))
            && !StartsWithRow(lines)
  {
    hide Strip, IsTagLine, FindTags, ParseContextGit, ScenarioHead, IsFiller, IsTableRow, NameOk, EndsScenario,
         EndsDescription, ScenarioLine, AllTagSafe, Join;
    PrintedScenarioLine(s);
    var inner := [ScenarioLine(s)] + after;
    if s.tags == [] {
      assert TagLine(s.tags) + [ScenarioLine(s)] + after == inner;
    } else {
      PrintedTagLine(s.tags);
      var lines := TagLine(s.tags) + [ScenarioLine(s)] + after;
      assert lines[1..] == inner;
      assert [] + s.tags == s.tags;
    }
  }

  /** The body parser finds nothing at `tail`. */
  ghost predicate BodyClear(tail: seq<string>) {
    var b := ParseBody(tail);
    RowFree(tail) && b.steps == [] && b.comments == [] && b.examples == []
  }

  lemma BodyReadsBack(s: Scenario, tail: seq<string>)
    requires StepsOk(s.steps) && CommentsOk(s.commentLines) && BlocksOk(s.examples) && BodyClear(tail)
    ensures ParseBody(RenderSteps(s.steps) + IndentAll(STEP_PAD, s.commentLines) + RenderExamples(s.examples) + tail)
            == Body(NormSteps(s.steps), IndentAll(STEP_PAD, s.commentLines), NormBlocks(s.examples), ParseBody(tail).rest)
  {
    hide StepOk, CommentOk, BlockOk, ParseBody, RowFree, StartsWithRow, RenderSteps, RenderExamples, IndentAll;
    var examples := RenderExamples(s.examples) + tail;
    var comments := IndentAll(STEP_PAD, s.commentLines) + examples;
    ExamplesReadBack(s.examples, tail);
    RowFreeStart(examples);
    CommentsReadBack(s.commentLines, examples);
    StepsReadBack(s.steps, comments);
    assert RenderSteps(s.steps) + IndentAll(STEP_PAD, s.commentLines) + RenderExamples(s.examples) + tail
        == RenderSteps(s.steps) + comments;
    assert NormSteps(s.steps) + [] == NormSteps(s.steps);
    assert IndentAll(STEP_PAD, s.commentLines) + [] == IndentAll(STEP_PAD, s.commentLines);
    assert NormBlocks(s.examples) + [] == NormBlocks(s.examples);
  }

  lemma ScenarioReadsBack(s: Scenario, tail: seq<string>)
    requires ScenarioOk(s) && BodyClear(tail)
    ensures ParseScenarios(RenderScenario(s) + tail) == [Norm(s)] + ParseScenarios(ParseBody(tail).rest)
    ensures var first := Strip((RenderScenario(s) + tail)[0]); EndsScenario(first) && EndsDescription(first)
    ensures !StartsWithRow(RenderScenario(s) + tail)
  {
    hide Strip, ParseLead, ParseContextGit, ScenarioHead, IsFiller, IsTableRow, NameOk, EndsScenario, EndsDescription,
         ScenarioLine, AllTagSafe, StepsOk, CommentsOk, BlocksOk, BodyClear, ParseBody, TagLine, RenderSteps,
         RenderExamples, IndentAll;
    var body := RenderSteps(s.steps) + IndentAll(STEP_PAD, s.commentLines) + RenderExamples(s.examples) + tail;
    var lines := TagLine(s.tags) + [ScenarioLine(s)] + body;
    assert RenderScenario(s) + tail == lines;
    LeadReadsBack(s, body);
    PrintedScenarioLine(s);
    BodyReadsBack(s, tail);
    assert ([ScenarioLine(s)] + body)[1..] == body;
  }

  lemma EndsBodyClear(lines: seq<string>)
    requires lines == [] || (EndsScenario(Strip(lines[0])) && !StartsWithRow(lines) && Strip(lines[0]) != "")
    ensures BodyClear([""] + lines) && ParseBody([""] + lines).rest == lines
  {
    hide EndsScenario, Strip, IsTableRow;
    BodySkipsBlank(lines);
    assert lines[0..] == lines;
    RowFreeStart(lines);
  }

  /** Print, then parse, is the identity up to the normal form, for every list of well-formed scenarios. */
  lemma {:induction false} PrintThenParse(scenarios: seq<Scenario>)
    requires ScenariosOk(scenarios)
    ensures ParseScenarios(RenderAll(scenarios)) == NormAll(scenarios)
    ensures BodyClear([""] + RenderAll(scenarios)) && ParseBody([""] + RenderAll(scenarios)).rest == RenderAll(scenarios)
    ensures scenarios != [] ==> var first := Strip(RenderAll(scenarios)[0]);
                                EndsScenario(first) && EndsDescription(first)
  {
    hide EndsScenario, EndsDescription, Strip, ScenarioOk, Norm, RenderScenario, BodyClear, ParseBody, IsTableRow;
    if scenarios == [] {
      EndsBodyClear([]);
    } else {
      var rest := RenderAll(scenarios[1..]);
      PrintThenParse(scenarios[1..]);
      var s := scenarios[0];
      ScenarioReadsBack(s, [""] + rest);
      assert RenderAll(scenarios) == RenderScenario(s) + ([""] + rest);
      BlankNotEnd();
      EndsBodyClear(RenderAll(scenarios));
    }
  }

  lemma BlankNotEnd()
    ensures !EndsScenario("")
  {
    BlankApart();
  }
}
