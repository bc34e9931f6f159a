/** The printers of `compile_bdd.py`: scenario lines and the trailing-blank trimming of merge mode. */
module FeatureRender {
  import opened Text
  import opened Gherkin
  import opened FeatureParser

  const STEP_PAD := "    "
  const ROW_PAD := "      "

  function IndentAll(pad: string, lines: seq<string>): (r: seq<string>)
    ensures |r| == |lines|
    ensures forall i | 0 <= i < |r| :: r[i] == pad + Strip(lines[i])
  {
    if lines == [] then [] else [pad + Strip(lines[0])] + IndentAll(pad, lines[1..])
  }

  function RenderSteps(steps: seq<Step>): seq<string> {
    if steps == [] then []
    else [STEP_PAD + steps[0].keyword + " " + steps[0].text] + IndentAll(STEP_PAD, steps[0].tableRows)
         + RenderSteps(steps[1..])
  }

  function RenderExamples(blocks: seq<ExamplesBlock>): seq<string> {
    if blocks == [] then []
    else ["", STEP_PAD + Strip(blocks[0].headerLine)] + IndentAll(ROW_PAD, blocks[0].rows)
         + RenderExamples(blocks[1..])
  }

  function TagLine(tags: seq<string>): seq<string> {
    if tags == [] then [] else ["  " + Join(" ", tags)]
  }

  function ScenarioLine(s: Scenario): string {
    "  " + s.keyword + ": " + s.name
  }

  /** `_render_scenario_lines`. */
  function RenderScenario(s: Scenario): seq<string> {
    TagLine(s.tags) + [ScenarioLine(s)] + RenderSteps(s.steps)
    + IndentAll(STEP_PAD, s.commentLines) + RenderExamples(s.examples)
  }

  /** Each scenario followed by one separating blank line. */
  function RenderAll(scenarios: seq<Scenario>): seq<string> {
    if scenarios == [] then []
    else RenderScenario(scenarios[0]) + [""] + RenderAll(scenarios[1..])
  }

  function DropTrailingEmpty(lines: seq<string>): (r: seq<string>)
    ensures |r| <= |lines|
    ensures r == [] || r[|r| - 1] != ""
  {
    if lines != [] && lines[|lines| - 1] == "" then DropTrailingEmpty(lines[..|lines| - 1]) else lines
  }

  /** `_without_trailing_blanks`. */
  function WithoutTrailingBlanks(lines: seq<string>): seq<string> {
    DropTrailingEmpty(RStripAll(lines))
  }

  // ------------------------------------------------------------------ the script's loops

  lemma {:induction false} RenderStepsSnoc(steps: seq<Step>, last: Step)
    ensures RenderSteps(steps + [last]) == RenderSteps(steps) + RenderSteps([last])
  {
    if steps == [] {
      assert steps + [last] == [last];
    } else {
      assert (steps + [last])[1..] == steps[1..] + [last];
      RenderStepsSnoc(steps[1..], last);
    }
  }

  lemma {:induction false} RenderExamplesSnoc(blocks: seq<ExamplesBlock>, last: ExamplesBlock)
    ensures RenderExamples(blocks + [last]) == RenderExamples(blocks) + RenderExamples([last])
  {
    if blocks == [] {
      assert blocks + [last] == [last];
    } else {
      assert (blocks + [last])[1..] == blocks[1..] + [last];
      RenderExamplesSnoc(blocks[1..], last);
    }
  }

  method IndentLoop(pad: string, rows: seq<string>) returns (lines: seq<string>)
    ensures lines == IndentAll(pad, rows)
  {
    lines := [];
    for i := 0 to |rows|
      invariant |lines| == i
      invariant forall k | 0 <= k < i :: lines[k] == pad + Strip(rows[k])
    {
      lines := lines + [pad + Strip(rows[i])];
    }
  }

  method RenderStepsLoop(steps: seq<Step>) returns (lines: seq<string>)
    ensures lines == RenderSteps(steps)
  {
    hide IndentAll, RenderSteps;
    lines := [];
    assert RenderSteps([]) == [] by { NoSteps(); }
    for i := 0 to |steps|
      invariant lines == RenderSteps(steps[..i])
    {
      var step := steps[i];
      RenderStepsSnoc(steps[..i], step);
      OneStep(step);
      assert steps[..i + 1] == steps[..i] + [step];
      var rows := IndentLoop(STEP_PAD, step.tableRows);
      lines := lines + ([STEP_PAD + step.keyword + " " + step.text] + rows);
    }
    assert steps[..|steps|] == steps;
  }

  lemma NoSteps()
    ensures RenderSteps([]) == [] && RenderExamples([]) == []
  {
  }

  lemma OneStep(step: Step)
    ensures RenderSteps([step])
            == [STEP_PAD + step.keyword + " " + step.text] + IndentAll(STEP_PAD, step.tableRows)
  {
    hide IndentAll;
    assert [step][1..] == [];
  }

  lemma OneBlock(block: ExamplesBlock)
    ensures RenderExamples([block]) == ["", STEP_PAD + Strip(block.headerLine)] + IndentAll(ROW_PAD, block.rows)
  {
    hide IndentAll, Strip;
    assert [block][1..] == [];
  }

  method RenderExamplesLoop(blocks: seq<ExamplesBlock>) returns (lines: seq<string>)
    ensures lines == RenderExamples(blocks)
  {
    hide IndentAll, RenderExamples, Strip;
    lines := [];
    assert RenderExamples([]) == [] by { NoSteps(); }
    for i := 0 to |blocks|
      invariant lines == RenderExamples(blocks[..i])
    {
      var block := blocks[i];
      RenderExamplesSnoc(blocks[..i], block);
      OneBlock(block);
      assert blocks[..i + 1] == blocks[..i] + [block];
      var rows := IndentLoop(ROW_PAD, block.rows);
      lines := lines + (["", STEP_PAD + Strip(block.headerLine)] + rows);
    }
    assert blocks[..|blocks|] == blocks;
  }

  /** `_render_scenario_lines`, appending section by section. */
  method RenderScenarioLines(s: Scenario) returns (lines: seq<string>)
    ensures lines == RenderScenario(s)
  {
    hide RenderSteps, RenderExamples, IndentAll, Join;
    lines := [];
    if s.tags != [] {
      lines := lines + ["  " + Join(" ", s.tags)];
    }
    lines := lines + ["  " + s.keyword + ": " + s.name];
    var steps := RenderStepsLoop(s.steps);
    var comments := IndentLoop(STEP_PAD, s.commentLines);
    var examples := RenderExamplesLoop(s.examples);
    lines := lines + steps + comments + examples;
  }

  /** `_without_trailing_blanks`, right-stripping every line and popping the blank tail. */
  method TrimTrailingBlanks(lines: seq<string>) returns (trimmed: seq<string>)
    ensures trimmed == WithoutTrailingBlanks(lines)
  {
    trimmed := [];
    for i := 0 to |lines|
      invariant |trimmed| == i
      invariant forall k | 0 <= k < i :: trimmed[k] == RStrip(lines[k])
    {
      trimmed := trimmed + [RStrip(lines[i])];
    }
    assert trimmed == RStripAll(lines);
    while trimmed != [] && trimmed[|trimmed| - 1] == ""
      invariant DropTrailingEmpty(trimmed) == WithoutTrailingBlanks(lines)
    {
      trimmed := trimmed[..|trimmed| - 1];
    }
  }
}
