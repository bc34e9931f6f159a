/** The normal form of a scenario: printing it gives the same text, it is stable, and it carries the same
    join key and the same hand-edit marker. */
module NormFacts {
  import opened Text
  import opened Gherkin
  import opened GherkinFacts
  import opened FeatureParser
  import opened FeatureRender
  import opened RoundTrip
  import opened ParserFacts
  import opened Merge
  import opened FileReadsBack

  // ------------------------------------------------------------------ same text

  lemma SameEnd(prefix: string, s: string)
    ensures RStrip(prefix + RStrip(s)) == RStrip(prefix + s)
  {
    var pad := RStripParts(s);
    assert prefix + s == prefix + RStrip(s) + pad;
    RStripPad(prefix + RStrip(s), pad);
  }

  lemma IndentTwice(pad: string, lines: seq<string>)
    requires AllSpace(pad)
    ensures IndentAll(pad, IndentAll(pad, lines)) == IndentAll(pad, lines)
  {
    hide IndentAll, Strip, AllSpace;
    forall i | 0 <= i < |lines| ensures Strip(pad + Strip(lines[i])) == Strip(lines[i]) {
      StripTrimmed(lines[i]);
      StripIndented(pad, Strip(lines[i]));
    }
  }

  lemma {:induction false} StepsSameText(steps: seq<Step>)
    ensures RStripAll(RenderSteps(NormSteps(steps))) == RStripAll(RenderSteps(steps))
  {
    hide RStrip, RStripAll, IndentAll;
    if steps == [] {
      assert NormSteps(steps) == [];
    } else {
      StepsSameText(steps[1..]);
      var s := steps[0];
      Pads();
      IndentTwice(STEP_PAD, s.tableRows);
      SameEnd(STEP_PAD + s.keyword + " ", s.text);
      var line, norm := STEP_PAD + s.keyword + " " + s.text, STEP_PAD + s.keyword + " " + RStrip(s.text);
      var rows := IndentAll(STEP_PAD, s.tableRows);
      assert NormSteps(steps)[1..] == NormSteps(steps[1..]);
      assert RenderSteps(NormSteps(steps)) == [norm] + rows + RenderSteps(NormSteps(steps[1..]));
      RStripAllAppend([line] + rows, RenderSteps(steps[1..]));
      RStripAllAppend([norm] + rows, RenderSteps(NormSteps(steps[1..])));
      assert RStripAll([line] + rows) == RStripAll([norm] + rows);
    }
  }

  lemma {:induction false} BlocksSameText(blocks: seq<ExamplesBlock>)
    ensures RenderExamples(NormBlocks(blocks)) == RenderExamples(blocks)
  {
    hide Strip, IndentAll;
    if blocks != [] {
      BlocksSameText(blocks[1..]);
      Pads();
      IndentTwice(ROW_PAD, blocks[0].rows);
      StripTrimmed(blocks[0].headerLine);
      StripIndented(STEP_PAD, Strip(blocks[0].headerLine));
      assert NormBlocks(blocks)[1..] == NormBlocks(blocks[1..]);
    }
  }

  lemma ScenarioSameText(s: Scenario)
    ensures RStripAll(RenderScenario(Norm(s))) == RStripAll(RenderScenario(s))
  {
    hide RStrip, RStripAll, IndentAll, RenderSteps, RenderExamples, NormSteps, NormBlocks, TagLine;
    StepsSameText(s.steps);
    BlocksSameText(s.examples);
    Pads();
    IndentTwice(STEP_PAD, s.commentLines);
    SameEnd("  " + s.keyword + ": ", s.name);
    var n := Norm(s);
    var comments := IndentAll(STEP_PAD, s.commentLines);
    assert RStripAll([ScenarioLine(n)]) == RStripAll([ScenarioLine(s)]);
    RStripAllAppend(TagLine(s.tags), [ScenarioLine(s)]);
    RStripAllAppend(TagLine(s.tags), [ScenarioLine(n)]);
    RStripAllAppend(TagLine(s.tags) + [ScenarioLine(s)], RenderSteps(s.steps));
    RStripAllAppend(TagLine(s.tags) + [ScenarioLine(n)], RenderSteps(n.steps));
    RStripAllAppend(TagLine(s.tags) + [ScenarioLine(s)] + RenderSteps(s.steps), comments);
    RStripAllAppend(TagLine(s.tags) + [ScenarioLine(n)] + RenderSteps(n.steps), comments);
    RStripAllAppend(TagLine(s.tags) + [ScenarioLine(s)] + RenderSteps(s.steps) + comments, RenderExamples(s.examples));
    RStripAllAppend(TagLine(s.tags) + [ScenarioLine(n)] + RenderSteps(n.steps) + comments, RenderExamples(s.examples));
  }

  /** Scenarios with the same normal forms print the same, up to white space at the end of lines. */
  lemma {:induction false} NormSameText(a: seq<Scenario>, b: seq<Scenario>)
    requires NormAll(a) == NormAll(b)
    ensures RStripAll(RenderAll(a)) == RStripAll(RenderAll(b))
  {
    hide RStrip, RStripAll, RenderScenario, Norm;
    assert |a| == |NormAll(a)| == |b|;
    if a != [] {
      assert NormAll(a)[0] == Norm(a[0]) && NormAll(b)[0] == Norm(b[0]);
      assert NormAll(a)[1..] == NormAll(a[1..]) && NormAll(b)[1..] == NormAll(b[1..]);
      NormSameText(a[1..], b[1..]);
      ScenarioSameText(a[0]);
      ScenarioSameText(b[0]);
      RStripAllAppend(RenderScenario(a[0]), [""]);
      RStripAllAppend(RenderScenario(b[0]), [""]);
      RStripAllAppend(RenderScenario(a[0]) + [""], RenderAll(a[1..]));
      RStripAllAppend(RenderScenario(b[0]) + [""], RenderAll(b[1..]));
    }
  }

  // ------------------------------------------------------------------ stability

  lemma NormTwice(s: Scenario)
    ensures Norm(Norm(s)) == Norm(s)
  {
    hide Strip, RStrip, IndentAll;
    Pads();
    StripAfterRStrip(s.name);
    IndentTwice(STEP_PAD, s.commentLines);
    forall i | 0 <= i < |s.steps| ensures NormStep(NormStep(s.steps[i])) == NormStep(s.steps[i]) {
      StripAfterRStrip(s.steps[i].text);
      IndentTwice(STEP_PAD, s.steps[i].tableRows);
    }
    assert NormSteps(NormSteps(s.steps)) == NormSteps(s.steps);
    forall i | 0 <= i < |s.examples| ensures NormBlock(NormBlock(s.examples[i])) == NormBlock(s.examples[i]) {
      StripTrimmed(s.examples[i].headerLine);
      StripIndented(STEP_PAD, Strip(s.examples[i].headerLine));
      IndentTwice(ROW_PAD, s.examples[i].rows);
    }
    assert NormBlocks(NormBlocks(s.examples)) == NormBlocks(s.examples);
  }

  lemma NormAllTwice(scenarios: seq<Scenario>)
    ensures NormAll(NormAll(scenarios)) == NormAll(scenarios)
  {
    hide Norm, NormAll;
    forall i | 0 <= i < |scenarios| ensures Norm(Norm(scenarios[i])) == Norm(scenarios[i]) {
      NormTwice(scenarios[i]);
    }
  }

  lemma NormAllAppend(a: seq<Scenario>, b: seq<Scenario>)
    ensures NormAll(a + b) == NormAll(a) + NormAll(b)
  {
    hide Norm, NormAll;
  }

  /** The normal form of a well-formed scenario is well formed: it is what the parser returns. */
  lemma NormOk(s: Scenario)
    requires ScenarioOk(s)
    ensures ScenarioOk(Norm(s))
  {
    hide ScenarioOk, Norm, ParseScenarios, RenderAll;
    PrintThenParse([s]);
    ParsedScenariosOk(RenderAll([s]));
    assert NormAll([s])[0] == Norm(s);
  }

  lemma NormAllOk(scenarios: seq<Scenario>)
    requires ScenariosOk(scenarios)
    ensures ScenariosOk(NormAll(scenarios))
  {
    hide ScenarioOk, Norm, NormAll;
    forall i | 0 <= i < |scenarios| ensures ScenarioOk(Norm(scenarios[i])) {
      NormOk(scenarios[i]);
    }
  }

  // ------------------------------------------------------------------ Examples are compared after stripping

  lemma NormRowsMatch(rows: seq<string>)
    ensures StripAll(IndentAll(ROW_PAD, rows)) == StripAll(rows)
  {
    hide StripAll, IndentAll, Strip;
    Pads();
    forall i | 0 <= i < |rows| ensures Strip(ROW_PAD + Strip(rows[i])) == Strip(rows[i]) {
      StripTrimmed(rows[i]);
      StripIndented(ROW_PAD, Strip(rows[i]));
    }
  }

  lemma IndentOfStrips(pad: string, a: seq<string>, b: seq<string>)
    requires StripAll(a) == StripAll(b)
    ensures IndentAll(pad, a) == IndentAll(pad, b)
  {
    hide StripAll, IndentAll, Strip;
    assert |StripAll(a)| == |a| && |StripAll(b)| == |b|;
    forall i | 0 <= i < |a| ensures Strip(a[i]) == Strip(b[i]) {
      assert StripAll(a)[i] == StripAll(b)[i];
    }
  }

  /** Two blocks match exactly when their normal forms are equal. */
  lemma BlockMatchIsNorm(a: ExamplesBlock, b: ExamplesBlock)
    ensures BlockMatch(a, b) <==> NormBlock(a) == NormBlock(b)
  {
    hide StripAll, IndentAll, Strip;
    if BlockMatch(a, b) {
      IndentOfStrips(ROW_PAD, a.rows, b.rows);
    }
    if NormBlock(a) == NormBlock(b) {
      NormRowsMatch(a.rows);
      NormRowsMatch(b.rows);
      var x, y := STEP_PAD + Strip(a.headerLine), STEP_PAD + Strip(b.headerLine);
      assert Strip(a.headerLine) == x[|STEP_PAD|..] && Strip(b.headerLine) == y[|STEP_PAD|..];
    }
  }

  lemma ExamplesMatchIsNorm(a: seq<ExamplesBlock>, b: seq<ExamplesBlock>)
    ensures ExamplesMatch(a, b) <==> NormBlocks(a) == NormBlocks(b)
  {
    hide BlockMatch, NormBlock, NormBlocks;
    assert |NormBlocks(a)| == |a| && |NormBlocks(b)| == |b|;
    forall i | 0 <= i < |a| && i < |b| ensures BlockMatch(a[i], b[i]) <==> NormBlocks(a)[i] == NormBlocks(b)[i] {
      BlockMatchIsNorm(a[i], b[i]);
    }
  }

  // ------------------------------------------------------------------ the hand-edit marker survives

  lemma {:induction false} MarkerAfterPad(pad: string, s: string)
    requires AllSpace(pad)
    ensures HasMarker(pad + s) == HasMarker(s)
  {
    hide MarkerAt;
    if pad == "" {
      assert pad + s == s;
    } else {
      assert (pad + s)[1..] == pad[1..] + s;
      MarkerAfterPad(pad[1..], s);
      NoMarkerAtSpace(pad + s);
    }
  }

  lemma NoMarkerAtSpace(u: string)
    requires u != "" && IsSpace(u[0])
    ensures !MarkerAt(u)
  {
  }

  /** A word without blanks is a prefix of a padded text exactly when it is one of the text itself. */
  lemma PrefixBeforePad(word: string, s: string, pad: string)
    requires AllSpace(pad) && forall i | 0 <= i < |word| :: !IsSpace(word[i])
    ensures word <= s + pad <==> word <= s
  {
    hide IsSpace;
    if |s| < |word| <= |s + pad| {
      assert (s + pad)[|s|] == pad[0];
      assert word[|s|] != (s + pad)[|s|];
    }
    if word <= s {
      assert word <= s + pad;
    }
  }

  lemma LowerPad(s: string, pad: string)
    requires AllSpace(pad)
    ensures Lower(s + pad) == Lower(s) + pad
  {
    hide Lower;
    forall i | 0 <= i < |pad| ensures LowerChar(pad[i]) == pad[i] {
      SpaceNoLetter(pad[i]);
    }
  }

  lemma SpaceNoLetter(c: char)
    requires IsSpace(c)
    ensures LowerChar(c) == c && !IsWord(c)
  {
  }

  lemma MarkerWords()
    ensures forall i | 0 <= i < |"@hand-edited"| :: !IsSpace("@hand-edited"[i])
    ensures forall i | 0 <= i < |"hand-edited"| :: !IsSpace("hand-edited"[i])
  {
  }

  lemma LStripBeforePad(s: string, pad: string)
    requires AllSpace(pad)
    ensures LStrip(s + pad) == if LStrip(s) == "" then "" else LStrip(s) + pad
  {
    if LStrip(s) == "" {
      var all := LStripParts(s);
      assert s == all;
      LStripPad(s + pad, "");
      assert s + pad + "" == s + pad;
    } else {
      LStripExtend(s, pad);
    }
  }

  lemma MarkerAtPad(u: string, pad: string)
    requires u != "" && AllSpace(pad)
    ensures MarkerAt(u + pad) == MarkerAt(u)
  {
    hide IsSpace, Lower, IsWord, AllSpace;
    MarkerWords();
    LowerPad(u, pad);
    PrefixBeforePad("@hand-edited", Lower(u), pad);
    if pad != "" {
      assert IsSpace(pad[0]) by {
        FirstSpace(pad);
      }
      SpaceNoLetter(pad[0]);
    } else {
      assert u + pad == u;
    }
    assert (u + pad)[1..] == u[1..] + pad;
    LStripBeforePad(u[1..], pad);
    LowerPad(LStrip(u[1..]), pad);
    PrefixBeforePad("hand-edited", Lower(LStrip(u[1..])), pad);
  }

  lemma FirstSpace(pad: string)
    requires AllSpace(pad) && pad != ""
    ensures IsSpace(pad[0])
  {
  }

  lemma {:induction false} MarkerBeforePad(s: string, pad: string)
    requires AllSpace(pad)
    ensures HasMarker(s + pad) == HasMarker(s)
  {
    hide MarkerAt, AllSpace;
    if s == "" {
      MarkerAfterPad(pad, "");
      assert pad + "" == s + pad;
    } else {
      assert (s + pad)[1..] == s[1..] + pad;
      MarkerBeforePad(s[1..], pad);
      MarkerAtPad(s, pad);
    }
  }

  lemma CommentMarkerKept(line: string)
    ensures HasMarker(STEP_PAD + Strip(line)) == HasMarker(line)
  {
    hide HasMarker, Strip, AllSpace;
    Pads();
    var left, right := StripParts(line);
    MarkerAfterPad(STEP_PAD, Strip(line));
    MarkerBeforePad(Strip(line), right);
    MarkerAfterPad(left, Strip(line) + right);
    assert left + (Strip(line) + right) == line;
  }

  /** Printing and parsing keeps the hand-edit marker. */
  lemma HandEditedKept(s: Scenario)
    ensures HandEdited(Norm(s)) == HandEdited(s)
  {
    hide HasMarker, Strip, IndentAll;
    forall i | 0 <= i < |s.commentLines| ensures HasMarker(Norm(s).commentLines[i]) == HasMarker(s.commentLines[i]) {
      CommentMarkerKept(s.commentLines[i]);
    }
    assert |Norm(s).commentLines| == |s.commentLines|;
  }
}
