/** A TARGET file whose second merge differs from its first: the `transport` column that the compiler removed is
    copied back from TARGET. */
module RestoredFile {
  import opened Text
  import opened Gherkin
  import opened GherkinFacts
  import opened FeatureParser
  import opened FeatureRender
  import opened RoundTrip
  import opened StepRewrite
  import opened TransportMeaning
  import opened Traceability
  import opened CompilePipeline
  import opened Merge
  import opened MergeFixpoint
  import opened FileReadsBack
  import opened RestoredExamples
  import opened WrittenTargets
  import opened MergeFiles
  import opened SampleFiles

  const SAMPLE_STEP := Step("When", "<x>", [])

  function SampleBlock(): ExamplesBlock {
    ExamplesBlock("Examples:", [FormatRow(["transport"]), FormatRow(["rest"])])
  }

  /** An outline named after `<transport>`, with an id, whose one step never mentions the transport. */
  function SampleOutline(): Scenario {
    Scenario(None, ["@T-1"], OUTLINE, "<transport>", [SAMPLE_STEP], [SampleBlock()], [])
  }

  // ------------------------------------------------------------------ it can be printed and read back

  lemma StepIsOk()
    ensures StepsOk([SAMPLE_STEP]) && RStrip("<x>") == "<x>"
  {
    hide ParseContextGit;
    assert RStrip("<x>") == "<x>";
    NoHashNoContextGit("When" + " " + "<x>");
  }

  lemma NameIsOk()
    ensures NameOk(OUTLINE, "<transport>") && RStrip("<transport>") == "<transport>"
  {
    hide ParseContextGit;
    assert RStrip("<transport>") == "<transport>";
    NoHashNoContextGit(OUTLINE + ": " + "<transport>");
  }

  lemma BlockIsOk()
    ensures BlocksOk([SampleBlock()])
  {
    hide FormatRow, ParseContextGit, IsTableRow;
    FormatRowIsRow(["transport"]);
    FormatRowIsRow(["rest"]);
    StripTrimmed("Examples:");
    NoHashNoContextGit("Examples:");
  }

  lemma TagsAreOk()
    ensures AllTagSafe(["@T-1"]) && TagId(["@T-1"]) == Some("T-1")
  {
    assert "@T-" <= "@T-1" && "@T-1"[1..] == "T-1";
  }

  lemma OutlineIsOk()
    ensures ScenarioOk(SampleOutline()) && ScenarioId(SampleOutline()) == Some("T-1")
  {
    hide AllTagSafe, NameOk, StepsOk, BlocksOk, SampleBlock, TagId;
    StepIsOk();
    NameIsOk();
    BlockIsOk();
    TagsAreOk();
  }

  // ------------------------------------------------------------------ as TARGET is parsed

  lemma StepsAreNormal()
    ensures NormSteps([SAMPLE_STEP]) == [SAMPLE_STEP]
  {
    hide RStrip;
    StepIsOk();
    assert IndentAll(STEP_PAD, []) == [];
  }

  lemma StepsAreRewritten()
    ensures RewriteSteps([SAMPLE_STEP]) == [SAMPLE_STEP]
  {
    hide StripFirstSuffix;
    assert [SAMPLE_STEP][1..] == [];
    assert forall i | 0 <= i < |TRANSPORT_SUFFIXES| :: |TRANSPORT_SUFFIXES[i]| > 3;
    ShortText("<x>", TRANSPORT_SUFFIXES);
    assert RewriteStep(SAMPLE_STEP) == SAMPLE_STEP;
    assert Kept(SAMPLE_STEP);
  }

  lemma {:induction false} ShortText(text: string, suffixes: seq<string>)
    requires forall i | 0 <= i < |suffixes| :: |suffixes[i]| > |text|
    ensures StripFirstSuffix(text, suffixes) == text
  {
    if suffixes != [] {
      assert forall i | 0 <= i < |suffixes| - 1 :: suffixes[1..][i] == suffixes[i + 1];
      ShortText(text, suffixes[1..]);
    }
  }

  lemma IndentedCells(row: string)
    ensures Cells(ROW_PAD + Strip(row)) == Cells(row)
  {
    hide Cells, Strip, AllSpace;
    Pads();
    StripTrimmed(row);
    StripIndented(ROW_PAD, Strip(row));
    SameTextSameCells(ROW_PAD + Strip(row), row);
  }

  /** The table keeps its one column when its rows are indented. */
  lemma IndentedTable(block: ExamplesBlock)
    requires block == NormBlock(SampleBlock())
    ensures |block.rows| == 2 && Cells(block.rows[0]) == ["transport"] && Cells(block.rows[1]) == ["rest"]
  {
    hide Cells, FormatRow, Strip;
    SampleTable(FormatRow(["transport"]), FormatRow(["rest"]));
    IndentedCells(FormatRow(["transport"]));
    IndentedCells(FormatRow(["rest"]));
    var rows := SampleBlock().rows;
    assert rows[1..][0] == rows[1] && rows[1..][1..] == [];
    assert block.rows == [ROW_PAD + Strip(rows[0]), ROW_PAD + Strip(rows[1])];
  }

  /** The scenario as the merge reads it. */
  lemma ParsedOutline(n: Scenario)
    requires n == Norm(SampleOutline())
    ensures n == SampleOutline().(examples := [NormBlock(SampleBlock())])
    ensures ScenarioId(n) == Some("T-1")
  {
    hide NormBlock, NormSteps, SampleBlock, TagId;
    NormParts(SampleOutline());
    StepsAreNormal();
    NameIsOk();
    TagsAreOk();
    assert IndentAll(STEP_PAD, []) == [];
    assert NormBlocks([SampleBlock()]) == [NormBlock(SampleBlock())];
  }

  // ------------------------------------------------------------------ it is written, and loses its column

  lemma {:induction false} NothingCut(name: string)
    requires 'v' !in name
    requires forall i | 0 <= i < |name| :: !IsSpace(name[i])
    ensures CutVia(name) == name && TightenParens(name) == name
  {
    if name != "" {
      NothingCut(name[1..]);
      assert [name[0]] + name[1..] == name;
    }
  }

  lemma NameIsKept()
    ensures NameStays("<transport>")
  {
    hide CutVia, TightenParens, ParseContextGit, RStrip;
    NothingCut("<transport>");
    StripTrimmed("<transport>");
    NameIsOk();
    NoHashNoContextGit("<transport>");
  }

  lemma ColumnIsDropped(block: ExamplesBlock)
    requires block == NormBlock(SampleBlock())
    ensures HasTransportColumn(block) && DropColumns([block]).Ok?
  {
    hide Cells, NormBlock, SampleBlock;
    IndentedTable(block);
    assert Cells(block.rows[0])[0] == "transport";
    DroppedCells(block.rows, 0, 1);
    assert [block][1..] == [];
  }

  lemma LosesColumn(n: Scenario)
    requires n == SampleOutline().(examples := [NormBlock(SampleBlock())])
    ensures Strippable(n) && LosesExamples(n) && StripTransport(n).Ok?
  {
    hide NormBlock, SampleBlock, Contains, HasTransportColumn, DropColumns, NameWithoutTransport, BecomesPlain;
    SampleName();
    SampleText();
    ColumnIsDropped(n.examples[0]);
  }

  /** The compiler takes the outline as it is, but for the column. */
  lemma OutlineIsRestorable(env: Env, n: Scenario)
    requires n == Norm(SampleOutline())
    ensures Restorable(env, [], n) && Readable(n, env.entries) && WriteScenario(n, env.entries).Ok?
  {
    hide NormBlock, SampleBlock, Strippable, LosesExamples, StripTransport, NameStays, NormSteps, RewriteSteps, AllTagSafe, Norm,
         TagId;
    ParsedOutline(n);
    StepsAreNormal();
    StepsAreRewritten();
    LosesColumn(n);
    NameIsKept();
    TagsAreOk();
    assert StepsRewritten(n) == n;
    assert OutputTags(n, env.entries) == n.tags;
    assert Find([], "T-1").None?;
  }

  // ------------------------------------------------------------------ the two merges

  lemma OneTarget(env: Env, n: Scenario)
    requires ScenarioId(n) == Some("T-1") && WriteScenario(n, env.entries).Ok?
    ensures IdList([n]) == ["T-1"] && Pass1(env, [], [n]).Ok?
  {
    hide ScenarioId, WriteScenario;
    assert [n][1..] == [];
    assert ["T-1"] + [] == ["T-1"];
    assert Find([], "T-1").None?;
  }

  /** A first merge of this file, and the merge of the same file against what the first one wrote, give different
      files, in any use case and under any settings. */
  lemma SecondMergeDiffers(env: Env, stamp: seq<string>)
    requires StampOk(stamp)
    ensures var target := ParseFeature(FileOf([SampleOutline()]));
            var first := MergeLines(env, target, None, stamp);
            && first.Ok?
            && MergeLines(env, target, Some(ParseFeature(first.value)), stamp) != first
  {
    hide ParseFeature, SampleOutline, ScenarioOk, Norm, Restorable, Readable, WriteScenario, ScenarioId, Pass1, Pass2, IdList,
         MergedFile, OutputTags, FileOf, StampOk, AllTagSafe;
    var lines := FileOf([SampleOutline()]);
    var target := ParseFeature(lines);
    var n := Norm(SampleOutline());
    OutlineIsOk();
    FileOfParses([SampleOutline()]);
    assert target.scenarios == [n] by {
      NormAllCons(SampleOutline(), []);
      assert [SampleOutline()] + [] == [SampleOutline()] && [n] + NormAll([]) == [n];
    }
    ParsedOutline(n);
    OutlineIsRestorable(env, n);
    OneTarget(env, n);
    assert Restorable(env, [], target.scenarios[0]);
    assert ParseOption(None) == None;
    MergeReproducesItself(env, env, lines, None, stamp);
  }
}
