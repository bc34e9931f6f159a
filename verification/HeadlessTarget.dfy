/** A TARGET file without a `Feature:` line: what the merge writes for it cannot be read back. */
module HeadlessTarget {
  import opened Text
  import opened Gherkin
  import opened GherkinFacts
  import opened FeatureParser
  import opened FeatureRender
  import opened RoundTrip
  import opened ParserFacts
  import opened CompilePipeline
  import opened Merge
  import opened MergeFacts
  import opened FileReadsBack
  import opened NormFacts
  import opened MergeFixpoint
  import opened MergeTwice
  import opened HandEdits
  import opened SampleFiles

  /** The line cannot be taken for a `Feature:` line: its text does not start with an `F`. */
  predicate NoF(line: string) {
    var t := Strip(line);
    t == "" || t[0] != 'F'
  }

  predicate AllNoF(lines: seq<string>) {
    forall i | 0 <= i < |lines| :: NoF(lines[i])
  }

  lemma PaddedNoF(pad: string, text: string)
    requires AllSpace(pad) && text != "" && !IsSpace(text[0]) && text[0] != 'F'
    ensures NoF(pad + text)
  {
    LStripPad(pad, text);
    TrimmedRStrip(text);
  }

  lemma StrippedNoF(pad: string, text: string)
    requires AllSpace(pad) && NoF(text)
    ensures NoF(pad + Strip(text))
  {
    StripTrimmed(text);
    StripIndented(pad, Strip(text));
  }

  lemma RowNoF(line: string)
    requires IsTableRow(Strip(line))
    ensures NoF(line)
  {
  }

  lemma HeaderNoF(line: string)
    requires IsExamples(Strip(line))
    ensures NoF(line)
  {
    var t := Strip(line);
    assert t[0] == "Examples:"[0];
  }

  lemma IndentedNoF(pad: string, lines: seq<string>)
    requires AllSpace(pad) && AllNoF(lines)
    ensures AllNoF(IndentAll(pad, lines))
  {
    hide NoF, IndentAll, Strip, AllSpace;
    forall i | 0 <= i < |lines| ensures NoF(pad + Strip(lines[i])) {
      StrippedNoF(pad, lines[i]);
    }
  }

  lemma RowsNoF(rows: seq<string>)
    requires RowsOk(rows)
    ensures AllNoF(rows)
  {
    hide NoF, Strip, IsTableRow;
    forall i | 0 <= i < |rows| ensures NoF(rows[i]) {
      RowNoF(rows[i]);
    }
  }

  lemma StepLineNoF(s: Step)
    requires StepKeyword(s.keyword)
    ensures NoF(STEP_PAD + s.keyword + " " + s.text)
  {
    hide NoF, AllSpace;
    Pads();
    var text := s.keyword + " " + s.text;
    assert text[0] == s.keyword[0] && !IsSpace(text[0]) && text[0] != 'F' by {
      KeywordLetters(s.keyword);
    }
    PaddedNoF(STEP_PAD, text);
    assert STEP_PAD + s.keyword + " " + s.text == STEP_PAD + text;
  }

  lemma KeywordLetters(keyword: string)
    requires StepKeyword(keyword)
    ensures keyword != "" && !IsSpace(keyword[0]) && keyword[0] != 'F'
  {
  }

  lemma {:induction false} StepsNoF(steps: seq<Step>)
    requires StepsOk(steps)
    ensures AllNoF(RenderSteps(steps))
  {
    hide NoF, RowsOk, StepKeyword, IndentAll, ParseContextGit, RStrip;
    if steps != [] {
      assert StepOk(steps[0]);
      assert forall i | 0 <= i < |steps| - 1 :: steps[1..][i] == steps[i + 1];
      StepsNoF(steps[1..]);
      StepLineNoF(steps[0]);
      RowsNoF(steps[0].tableRows);
      Pads();
      IndentedNoF(STEP_PAD, steps[0].tableRows);
    }
  }

  lemma BlankNoF()
    ensures NoF("")
  {
    AllSpaceStrips("");
  }

  lemma {:induction false} ExamplesNoF(blocks: seq<ExamplesBlock>)
    requires BlocksOk(blocks)
    ensures AllNoF(RenderExamples(blocks))
  {
    hide NoF, RowsOk, IndentAll, Strip, ParseContextGit, IsExamples, AllSpace;
    if blocks != [] {
      assert BlockOk(blocks[0]);
      assert forall i | 0 <= i < |blocks| - 1 :: blocks[1..][i] == blocks[i + 1];
      ExamplesNoF(blocks[1..]);
      HeaderNoF(blocks[0].headerLine);
      Pads();
      StrippedNoF(STEP_PAD, blocks[0].headerLine);
      RowsNoF(blocks[0].rows);
      IndentedNoF(ROW_PAD, blocks[0].rows);
      BlankNoF();
    }
  }

  lemma CommentsNoF(lines: seq<string>)
    requires CommentsOk(lines)
    ensures AllNoF(lines)
  {
    hide Strip, IsSectionRule, ParseContextGit;
    forall i | 0 <= i < |lines| ensures NoF(lines[i]) {
      assert CommentOk(lines[i]);
    }
  }

  lemma JoinedNoF(tags: seq<string>)
    requires AllTagSafe(tags) && tags != []
    ensures Join(" ", tags) != "" && !IsSpace(Join(" ", tags)[0]) && Join(" ", tags)[0] != 'F'
  {
    assert tags[0][0] == '@';
  }

  lemma ScenarioLineNoF(s: Scenario)
    requires NameOk(s.keyword, s.name)
    ensures NoF(ScenarioLine(s))
  {
    hide NoF, AllSpace, ParseContextGit, RStrip;
    Pads();
    var text := s.keyword + ": " + s.name;
    assert text[0] == s.keyword[0] == 'S';
    PaddedNoF("  ", text);
    assert ScenarioLine(s) == "  " + text;
  }

  lemma ScenarioNoF(s: Scenario)
    requires ScenarioOk(s)
    ensures AllNoF(RenderScenario(s))
  {
    hide NoF, StepsOk, CommentsOk, BlocksOk, NameOk, AllTagSafe, IndentAll, RenderSteps, RenderExamples, Join, ScenarioLine;
    if s.tags != [] {
      JoinedNoF(s.tags);
      Pads();
      PaddedNoF("  ", Join(" ", s.tags));
    }
    ScenarioLineNoF(s);
    StepsNoF(s.steps);
    CommentsNoF(s.commentLines);
    Pads();
    IndentedNoF(STEP_PAD, s.commentLines);
    ExamplesNoF(s.examples);
  }

  lemma {:induction false} ScenariosNoF(scenarios: seq<Scenario>)
    requires ScenariosOk(scenarios)
    ensures AllNoF(RenderAll(scenarios))
  {
    hide NoF, ScenarioOk, RenderScenario;
    if scenarios != [] {
      assert forall i | 0 <= i < |scenarios| - 1 :: scenarios[1..][i] == scenarios[i + 1];
      ScenariosNoF(scenarios[1..]);
      ScenarioNoF(scenarios[0]);
      BlankNoF();
    }
  }

  // ------------------------------------------------------------------ lines in front of a `Feature:` line

  predicate NoFeature(lines: seq<string>) {
    forall i | 0 <= i < |lines| :: !IsFeature(Strip(lines[i]))
  }

  lemma FeatureLetter(t: string)
    ensures IsFeature(t) ==> t != "" && t[0] == 'F'
  {
  }

  lemma NoFNoFeature(lines: seq<string>)
    requires AllNoF(lines)
    ensures NoFeature(lines)
  {
    hide Strip, IsFeature;
    forall i | 0 <= i < |lines| ensures !IsFeature(Strip(lines[i])) {
      FeatureLetter(Strip(lines[i]));
      assert NoF(lines[i]);
    }
  }

  lemma {:induction false} SkipsNoFeature(lines: seq<string>, rest: seq<string>, acc: Preamble) returns (after: Preamble)
    requires NoFeature(lines)
    ensures ParsePreamble(lines + rest, acc) == ParsePreamble(rest, after)
    decreases |lines|
  {
    hide Strip, ParseContextGit, IsTagLine, FindTags, IsComment, IsFeature;
    if lines == [] {
      assert lines + rest == rest;
      after := acc;
    } else {
      assert (lines + rest)[1..] == lines[1..] + rest;
      assert forall i | 0 <= i < |lines| - 1 :: lines[1..][i] == lines[i + 1];
      var t := Strip(lines[0]);
      if ParseContextGit(t).Some? {
        after := SkipsNoFeature(lines[1..], rest, acc.(contextgit := ParseContextGit(t)));
      } else if IsTagLine(t) {
        after := SkipsNoFeature(lines[1..], rest, acc.(tags := acc.tags + FindTags(t)));
      } else if IsComment(t) || t == "" {
        after := SkipsNoFeature(lines[1..], rest, acc.(comments := acc.comments + [lines[0]]));
      } else {
        after := SkipsNoFeature(lines[1..], rest, acc);
      }
    }
  }

  lemma NothingRead(lines: seq<string>)
    requires NoFeature(lines)
    ensures ParseFeature(lines).scenarios == []
  {
    hide NoFeature;
    var after := SkipsNoFeature(lines, [], NO_PREAMBLE);
    assert lines + [] == lines;
  }

  // ------------------------------------------------------------------ a `Feature:` line inside Background

  lemma {:induction false} RunStops(lines: seq<string>)
    ensures DescriptionRun(lines) < |lines| ==> EndsDescription(Strip(lines[DescriptionRun(lines)]))
  {
    hide Strip, EndsDescription;
    if lines != [] && !EndsDescription(Strip(lines[0])) {
      RunStops(lines[1..]);
    }
  }

  lemma OnlyBackgroundEnds(t: string)
    requires !EndsScenario(t) && EndsDescription(t)
    ensures IsBackground(t)
  {
    hide ScenarioHead, ParseContextGit, IsTagLine, IsSectionRule;
  }

  /** The description of body lines ends at a Background line, if at all. */
  lemma BodyParts(body: seq<string>)
    requires forall i | 0 <= i < |body| :: !EndsScenario(Strip(body[i]))
    ensures var n := DescriptionRun(body);
            DescriptionOk(body[..n]) && BackgroundOk(body[n..])
  {
    hide Strip, EndsScenario, EndsDescription, IsBackground, DescriptionRun;
    var n := DescriptionRun(body);
    DescriptionFacts(body);
    RunStops(body);
    assert forall i | 0 <= i < |body| - n :: body[n..][i] == body[n + i];
    if n < |body| {
      OnlyBackgroundEnds(Strip(body[n]));
    }
  }

  /** Whatever body lines follow, they are read as description and Background, and the scenarios stay whole. */
  lemma BodyReadOver(body: seq<string>, scenarioLines: seq<string>)
    requires forall i | 0 <= i < |body| :: !EndsScenario(Strip(body[i]))
    requires scenarioLines == []
             || (EndsScenario(Strip(scenarioLines[0])) && EndsDescription(Strip(scenarioLines[0])))
    ensures var d := DescriptionRun(body + scenarioLines);
            var b := BackgroundRun((body + scenarioLines)[d..]);
            (body + scenarioLines)[d..][b..] == scenarioLines
  {
    hide Strip, EndsScenario, EndsDescription, DescriptionRun, BackgroundRun, DescriptionOk, BackgroundOk;
    BodyParts(body);
    var n := DescriptionRun(body);
    PartsReadOver(body[..n], body[n..], scenarioLines);
    assert body[..n] + body[n..] == body;
  }

  lemma PartsReadOver(description: seq<string>, background: seq<string>, scenarioLines: seq<string>)
    requires DescriptionOk(description) && BackgroundOk(background)
    requires scenarioLines == []
             || (EndsScenario(Strip(scenarioLines[0])) && EndsDescription(Strip(scenarioLines[0])))
    ensures var lines := description + background + scenarioLines;
            var d := DescriptionRun(lines);
            lines[d..][BackgroundRun(lines[d..])..] == scenarioLines
  {
    hide Strip, EndsScenario, EndsDescription, DescriptionRun, BackgroundRun, DescriptionOk, BackgroundOk;
    var after := background + scenarioLines;
    var lines := description + background + scenarioLines;
    assert lines == description + after;
    BackgroundStart(background, scenarioLines);
    DescriptionRead(description, after);
    assert lines[|description|..] == after;
    BackgroundRead(background, scenarioLines);
    assert after[|background|..] == scenarioLines;
  }

  lemma FeatureLineStops(lines: seq<string>, acc: Preamble)
    requires lines != [] && IsFeature(Strip(lines[0])) && !EndsScenario(Strip(lines[0]))
    ensures ParsePreamble(lines, acc).rest == lines
  {
    hide Strip, ScenarioHead, ParseContextGit, IsTagLine, IsSectionRule, IsFeature;
  }

  /** Text in front of a Background section that names a feature: the reading starts at that line, and finds all
      scenarios behind the section. */
  lemma ReadsFromBackground(front: seq<string>, section: seq<string>, scenarioLines: seq<string>, k: nat)
    requires NoFeature(front) && k < |section| && NoFeature(section[..k]) && IsFeature(Strip(section[k]))
    requires forall i | k <= i < |section| :: !EndsScenario(Strip(section[i]))
    requires scenarioLines == []
             || (EndsScenario(Strip(scenarioLines[0])) && EndsDescription(Strip(scenarioLines[0])))
    ensures ParseFeature(front + section + scenarioLines).scenarios == ParseScenarios(scenarioLines)
  {
    hide Strip, EndsScenario, EndsDescription, IsFeature, ParsePreamble, DescriptionRun, BackgroundRun, ParseScenarios;
    var skipped := front + section[..k];
    var body := section[k + 1..];
    var rest := [section[k]] + (body + scenarioLines);
    assert front + section + scenarioLines == skipped + rest;
    assert NoFeature(skipped);
    var after := SkipsNoFeature(skipped, rest, NO_PREAMBLE);
    FeatureLineStops(rest, after);
    assert rest[1..] == body + scenarioLines;
    assert forall i | 0 <= i < |body| :: body[i] == section[k + 1 + i];
    BodyReadOver(body, scenarioLines);
  }

  lemma {:induction false} TrimmedNoF(lines: seq<string>)
    requires AllNoF(lines)
    ensures AllNoF(DropTrailingEmpty(lines))
  {
    hide NoF;
    if lines != [] && lines[|lines| - 1] == "" {
      TrimmedNoF(lines[..|lines| - 1]);
    }
  }

  lemma EndSpaceNoF(lines: seq<string>)
    requires AllNoF(lines)
    ensures AllNoF(RStripAll(lines))
  {
    hide Strip, RStrip, RStripAll;
    forall i | 0 <= i < |lines| ensures NoF(RStrip(lines[i])) {
      StripAfterRStrip(lines[i]);
      assert NoF(lines[i]);
    }
  }

  lemma StampNoF(stamp: seq<string>)
    requires StampOk(stamp)
    ensures AllNoF(stamp)
  {
    hide Strip;
    forall i | 0 <= i < |stamp| ensures NoF(stamp[i]) {
      StampLineStrips(stamp[i]);
      assert IsComment(Strip(stamp[i])) ==> Strip(stamp[i])[0] == '#';
    }
  }

  /** A file without a `Feature:` line has tags at most. */
  lemma HeadlessParts(lines: seq<string>)
    requires ParseFeature(lines).featureLine == ""
    ensures var f := ParseFeature(lines);
            AllTagSafe(f.featureTags) && f.descriptionLines == [] && f.backgroundLines == [] && f.scenarios == []
  {
    hide ParsePreamble, Strip, AllTagSafe, TagSafe;
    NoTagsSafe();
    PreambleFacts(lines, NO_PREAMBLE);
  }

  lemma HeadNoF(target: Feature)
    requires AllTagSafe(target.featureTags) && target.featureLine == "" && target.descriptionLines == []
    ensures AllNoF(FeatureHead(target))
  {
    hide NoF, AllTagSafe, Join;
    BlankNoF();
    if target.featureTags != [] {
      JoinedNoF(target.featureTags);
      PaddedNoF("", Join(" ", target.featureTags));
      assert "" + Join(" ", target.featureTags) == Join(" ", target.featureTags);
    }
    assert RStripAll([]) == [];
  }

  // ------------------------------------------------------------------ the section that is written

  /** Some Background line can itself be taken for a `Feature:` line. */
  predicate NamesFeature(background: seq<string>) {
    exists i | 0 <= i < |background| :: IsFeature(Strip(background[i]))
  }

  lemma {:induction false} TrailingNames(lines: seq<string>)
    ensures NamesFeature(DropTrailingEmpty(lines)) <==> NamesFeature(lines)
  {
    hide IsFeature, Strip;
    if lines != [] && lines[|lines| - 1] == "" {
      TrailingNames(lines[..|lines| - 1]);
      BlankIsNoFeature();
    }
  }

  lemma BlankIsNoFeature()
    ensures !IsFeature(Strip("")) && Strip("") == ""
  {
    AllSpaceStrips("");
  }

  lemma SectionNames(background: seq<string>)
    ensures NamesFeature(BackgroundSection(background)) <==> NamesFeature(background)
  {
    hide IsFeature, Strip, RStrip, DropTrailingEmpty, RStripAll;
    if background != [] {
      forall i | 0 <= i < |background| ensures Strip(RStrip(background[i])) == Strip(background[i]) {
        StripAfterRStrip(background[i]);
      }
      var stripped := RStripAll(background);
      assert forall i | 0 <= i < |background| :: Strip(stripped[i]) == Strip(background[i]);
      TrailingNames(stripped);
      BlankIsNoFeature();
      var trimmed := DropTrailingEmpty(stripped);
      assert forall i | 0 <= i < |trimmed| :: (trimmed + [""])[i] == trimmed[i];
    }
  }

  lemma FirstName(section: seq<string>) returns (k: nat)
    requires NamesFeature(section)
    ensures k < |section| && NoFeature(section[..k]) && IsFeature(Strip(section[k]))
  {
    hide IsFeature, Strip;
    k := 0;
    while !IsFeature(Strip(section[k]))
      invariant k < |section| && NoFeature(section[..k])
      invariant exists i | k <= i < |section| :: IsFeature(Strip(section[i]))
      decreases |section| - k
    {
      k := k + 1;
    }
  }

  lemma BackgroundLineIsNoFeature(t: string)
    requires IsBackground(t)
    ensures !IsFeature(t)
  {
    assert "Background:"[0] == 'B' && "Feature:"[0] == 'F';
  }

  /** A merge against a TARGET without a `Feature:` line, read back: no scenario at all, unless a Background line
      names a feature. */
  lemma HeadlessFileReads(stamp: seq<string>, target: Feature, background: seq<string>, scenarios: seq<Scenario>)
    requires StampOk(stamp) && ScenariosOk(scenarios) && BackgroundOk(background)
    requires AllTagSafe(target.featureTags) && target.featureLine == "" && target.descriptionLines == []
    ensures ParseFeature(MergedFile(stamp, target, background, scenarios)).scenarios
            == if NamesFeature(background) then NormAll(scenarios) else []
  {
    hide Strip, IsFeature, EndsScenario, EndsDescription, ScenarioOk, ScenariosOk, RenderAll, RStripAll, ParseScenarios, NormAll,
         DropTrailingEmpty, BackgroundSection, FeatureHead, StampOk, AllTagSafe, BackgroundOk, NoF, ParseFeature, AllNoF;
    var section := BackgroundSection(background);
    var scenarioLines := RStripAll(RenderAll(scenarios));
    var front := RStripAll(stamp + FeatureHead(target));
    var lines := stamp + FeatureHead(target) + section + RenderAll(scenarios);
    SectionFacts(background);
    RStripAllAppend(stamp + FeatureHead(target), section);
    RStripAllAppend(stamp + FeatureHead(target) + section, RenderAll(scenarios));
    var read := front + section + scenarioLines;
    assert RStripAll(lines) == read;
    DropTrailingAlike(RStripAll(lines));
    FrontNoFeature(stamp, target);
    ScenariosNoF(scenarios);
    EndSpaceNoF(RenderAll(scenarios));
    NoFNoFeature(scenarioLines);
    ScenarioLinesStart(scenarios);
    SectionNames(background);
    if NamesFeature(background) {
      var k := FirstName(section);
      SectionBody(section, k);
      ReadsFromBackground(front, section, scenarioLines, k);
    } else {
      assert NoFeature(section);
      assert NoFeature(read);
      NothingRead(read);
    }
  }

  lemma FrontNoFeature(stamp: seq<string>, target: Feature)
    requires StampOk(stamp) && AllTagSafe(target.featureTags) && target.featureLine == "" && target.descriptionLines == []
    ensures NoFeature(RStripAll(stamp + FeatureHead(target)))
  {
    hide NoF, StampOk, AllTagSafe, FeatureHead, RStripAll;
    StampNoF(stamp);
    HeadNoF(target);
    EndSpaceNoF(stamp + FeatureHead(target));
    NoFNoFeature(RStripAll(stamp + FeatureHead(target)));
  }

  lemma SectionBody(section: seq<string>, k: nat)
    requires BackgroundOk(section) && k < |section| && IsFeature(Strip(section[k]))
    ensures forall i | k <= i < |section| :: !EndsScenario(Strip(section[i]))
  {
    hide Strip, IsFeature, EndsScenario, IsBackground;
    if k == 0 {
      BackgroundLineIsNoFeature(Strip(section[0]));
    }
  }

  lemma LegacyBackgroundStays(env: Env, target: Feature, legacy: Feature)
    requires target.backgroundLines == []
    ensures MergedBackground(env, target, Some(legacy)) == legacy.backgroundLines
  {
  }

  /** Merging against a TARGET without a `Feature:` line: the next run reads every preserved scenario if some
      Background line of LEGACY names a feature, and no scenario otherwise. */
  lemma HeadlessMergeReads(env: Env, targetLines: seq<string>, lines: seq<string>, stamp: seq<string>)
    requires ParseFeature(targetLines).featureLine == "" && StampOk(stamp)
    requires CompiledOk(ParseFeature(lines).scenarios)
    ensures var legacy := ParseFeature(lines);
            var written := MergeLines(env, ParseFeature(targetLines), Some(legacy), stamp);
            && written.Ok?
            && ParseFeature(written.value).scenarios
               == if NamesFeature(legacy.backgroundLines)
                  then NormAll(Survivors(Pass2(legacy.scenarios, {}, KeyOrder(legacy.scenarios)))) else []
  {
    hide ParseFeature, CompiledOk, StampOk, AllTagSafe, MergedFile, KeyOrder, Pass2, OutcomeOk, LegacyOutcome, Survivors, NormAll,
         MergedBackground, BackgroundOk, NamesFeature;
    var target, legacy := ParseFeature(targetLines), ParseFeature(lines);
    HeadlessParts(targetLines);
    LegacyBackgroundStays(env, target, legacy);
    var rest := Pass2(legacy.scenarios, {}, KeyOrder(legacy.scenarios));
    KeyOrderDistinct(legacy.scenarios);
    Pass2Facts(legacy.scenarios, {}, KeyOrder(legacy.scenarios));
    forall o | o in rest ensures OutcomeOk(o) {
      LegacyOutcomeOk(legacy.scenarios, {}, o);
    }
    OutcomesPrintable(rest);
    assert [] + rest == rest;
    BackgroundParsed(lines);
    HeadlessFileReads(stamp, target, legacy.backgroundLines, Survivors(rest));
  }

  /** The guard of the survival theorem is exact. One merge keeps the protected scenarios of a compiled file if
      and only if TARGET has a `Feature:` line, or there is nothing to protect, or a Background line of the file
      itself names a feature. */
  lemma FeatureLineDecides(lines: seq<string>, input: Input, ids: set<string>)
    requires CompiledOk(ParseFeature(lines).scenarios)
    requires ParseFeature(input.target).featureLine != "" ==> InputOk(input, ids)
    requires StampOk(input.stamp)
    ensures NormAll(Protected(ParseFeature(FileAfter(lines, input)).scenarios, ids))
            == NormAll(Protected(ParseFeature(lines).scenarios, ids))
       <==> (ParseFeature(input.target).featureLine != "" || Protected(ParseFeature(lines).scenarios, ids) == []
             || NamesFeature(ParseFeature(lines).backgroundLines))
  {
    hide ParseFeature, CompiledOk, StampOk, InputOk, Protected, NormAll, MergeLines, NamesFeature, Pass2, KeyOrder, Survivors;
    var legacy := ParseFeature(lines).scenarios;
    if ParseFeature(input.target).featureLine != "" {
      OneMergeProtects(lines, input, ids);
    } else {
      HeadlessMergeReads(input.env, input.target, lines, input.stamp);
      NothingProtected(ids);
      assert |NormAll(Protected(legacy, ids))| == |Protected(legacy, ids)|;
      if NamesFeature(ParseFeature(lines).backgroundLines) {
        HeadlessParts(input.target);
        NoTargetProtects(input.env, ParseFeature(input.target), legacy, ids);
        NormAllTwice(Protected(legacy, ids));
      }
    }
  }

  lemma NoTargetProtects(env: Env, target: Feature, legacy: seq<Scenario>, ids: set<string>)
    requires target.scenarios == [] && CompiledOk(legacy)
    ensures Protected(NormAll(Survivors(Pass2(legacy, {}, KeyOrder(legacy)))), ids) == NormAll(Protected(legacy, ids))
  {
    hide CompiledOk, Protected, NormAll, Pass2, KeyOrder, Survivors;
    OutcomesProtect(env, target, legacy, ids);
    assert [] + Pass2(legacy, {}, KeyOrder(legacy)) == Pass2(legacy, {}, KeyOrder(legacy));
  }

  lemma NothingProtected(ids: set<string>)
    ensures NormAll(Protected([], ids)) == [] && Protected([], ids) == []
  {
  }

  // ------------------------------------------------------------------ a concrete loss

  predicate NoCapital(s: string) {
    forall i | 0 <= i < |s| :: !('A' <= s[i] <= 'Z')
  }

  lemma NoCapitalStays(s: string)
    requires NoCapital(s)
    ensures Lower(s) == s
  {
  }

  lemma SampleLower()
    ensures Lower("@hand-edited") == "@hand-edited"
  {
    hide Lower;
    assert NoCapital("@hand-edited");
    NoCapitalStays("@hand-edited");
  }

  lemma SampleMarker()
    ensures HasMarker("@hand-edited")
  {
    hide Lower, IsWord, LStrip;
    SampleLower();
    assert MarkerAt("@hand-edited");
  }

  lemma SampleName()
    ensures NameOk(SCENARIO, "x") && RStrip("x") == "x"
  {
    assert RStrip("x") == "x";
    NoHashNoContextGit(SCENARIO + ": " + "x");
  }

  lemma SampleTags()
    ensures AllTagSafe(["@T-1", "@hand-edited"]) && TagId(["@T-1", "@hand-edited"]) == Some("T-1")
  {
    assert "@T-" <= "@T-1" && "@T-1"[1..] == "T-1";
  }

  lemma SampleEdited()
    ensures var s := Scenario(None, ["@T-1", "@hand-edited"], SCENARIO, "x", [], [], []);
            && ScenarioOk(s) && Norm(s) == s && ScenarioId(s) == Some("T-1") && HandEdited(s)
            && ScenarioId(s) == TagId(s.tags)
  {
    hide HasMarker, NameOk, AllTagSafe, TagId, RStrip;
    var s := Scenario(None, ["@T-1", "@hand-edited"], SCENARIO, "x", [], [], []);
    SampleMarker();
    SampleName();
    SampleTags();
    assert HasMarker(s.tags[1]);
    assert NormSteps([]) == [] && NormBlocks([]) == [] && IndentAll(STEP_PAD, []) == [];
  }

  /** An empty TARGET file and a LEGACY file with one hand-edited scenario: after one merge the scenario cannot be
      read any more. */
  lemma EmptyTargetLosesEdit(env: Env)
    ensures var s := Scenario(None, ["@T-1", "@hand-edited"], SCENARIO, "x", [], [], []);
            var lines := FileOf([s]);
            && Protected(ParseFeature(lines).scenarios, {"T-1"}) == [s]
            && ParseFeature(FileAfter(lines, Input(env, [], []))).scenarios == []
  {
    hide ParseFeature, MergeLines, HandEdited, ScenarioOk, Norm, TagId;
    var s := Scenario(None, ["@T-1", "@hand-edited"], SCENARIO, "x", [], [], []);
    SampleEdited();
    FileOfParses([s]);
    assert NormAll([s]) == [s] by {
      NormAllCons(s, []);
      assert [s] + [] == [s] && NormAll([]) == [];
    }
    OneProtected(s, "T-1");
    EmptyHasNoFeature();
    HeadlessMergeReads(env, [], FileOf([s]), []);
  }

  lemma EmptyHasNoFeature()
    ensures ParseFeature([]).featureLine == ""
  {
  }

  lemma OneProtected(s: Scenario, id: string)
    requires ScenarioId(s) == Some(id) && HandEdited(s)
    ensures Protected([s], {id}) == [s]
  {
    hide HandEdited, ScenarioId;
    assert [s][1..] == [];
    assert Find([s], id) == Some(s);
    assert KeyOrder([s]) == [id] + Without([], id) == [id];
    assert [id][1..] == [] && Pick([s], {id}, []) == [];
  }
}
